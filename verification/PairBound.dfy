/** The conflict authorizations of `pactile schedule`: the bounded read of their
    file, and the early bound on their number. */
module PairBound {
  import opened CanonicalJson
  import opened JsText
  import opened Options

  // ---- The bounded read ----

  const MAX_FILE_BYTES := 65536

  /** What one `readSync` may deliver: something, unless the file is at its end. */
  function Delivered(wanted: nat, left: nat): nat
  {
    if left == 0 then 0 else if wanted == 0 then 1 else if wanted <= left then wanted else left
  }

  /** The read loop; `chunk` says how much the system delivers at each position. */
  method ReadBounded(content: seq<int>, chunk: nat -> nat) returns (bytes: Option<seq<int>>)
    ensures bytes == if |content| <= 0x1_0000 then Some(content) else None
  {
    var buffer := new int[MAX_FILE_BYTES + 1];
    var bytesRead := 0;
    while bytesRead < buffer.Length
      invariant 0 <= bytesRead <= buffer.Length && bytesRead <= |content|
      invariant buffer[..bytesRead] == content[..bytesRead]
    {
      var room := buffer.Length - bytesRead;
      var left := |content| - bytesRead;
      var count := Delivered(chunk(bytesRead), if left <= room then left else room);
      if count == 0 {
        break;
      }
      for k := 0 to count
        invariant buffer[..bytesRead + k] == content[..bytesRead + k]
      {
        buffer[bytesRead + k] := content[bytesRead + k];
      }
      bytesRead := bytesRead + count;
    }
    if bytesRead > MAX_FILE_BYTES {
      return None;
    }
    assert content[..|content|] == content;
    return Some(buffer[..bytesRead]);
  }

  // ---- The entries ----

  /** One entry; `fieldsOk` stands for the checks of its other fields. */
  datatype Authorization = Authorization(left: Text, right: Text, fieldsOk: bool)

  /** `JSON.stringify([left, right].sort())` */
  function PairKey(left: Text, right: Text): Text
  {
    StableJson(Arr(if Less(right, left) then [Str(right), Str(left)] else [Str(left), Str(right)])).GetOr([])
  }

  lemma StringsPrint(a: Text, b: Text)
    ensures Valid(Arr([Str(a), Str(b)])) && Serializable(Arr([Str(a), Str(b)]))
    ensures StableJson(Arr([Str(a), Str(b)])).Some?
  {
    StableJsonTotal(Arr([Str(a), Str(b)]));
  }

  /** The key stands for the unordered pair, whatever the ids contain. */
  lemma KeyIsPair(a: Text, b: Text, c: Text, d: Text)
    ensures PairKey(a, b) == PairKey(c, d) <==> (a == c && b == d) || (a == d && b == c)
  {
    hide StableJson, Valid, Serializable;
    var v := Arr(if Less(b, a) then [Str(b), Str(a)] else [Str(a), Str(b)]);
    var w := Arr(if Less(d, c) then [Str(d), Str(c)] else [Str(c), Str(d)]);
    StringsPrint(a, b);
    StringsPrint(b, a);
    StringsPrint(c, d);
    StringsPrint(d, c);
    PrintsAlikeIffSame(v, w);
    assert Same(v, w) <==> Same(v.items[0], w.items[0]) && Same(v.items[1], w.items[1]);
    LessTrichotomy(a, b);
  }

  /** The checks made entry by entry; `seen` holds the keys of earlier ones. */
  predicate EntryPasses(e: Authorization, candidates: seq<Text>, seen: set<Text>)
  {
    && e.left != [] && e.right != [] && e.left != e.right
    && e.left in candidates && e.right in candidates
    && PairKey(e.left, e.right) !in seen && e.fieldsOk
  }

  predicate AllPass(entries: seq<Authorization>, candidates: seq<Text>, seen: set<Text>)
  {
    entries == [] ||
    (EntryPasses(entries[0], candidates, seen)
     && AllPass(entries[1..], candidates, seen + {PairKey(entries[0].left, entries[0].right)}))
  }

  function MaximumPairs(n: nat): nat { n * (n - 1) / 2 }

  /** `parseConflictParallelizations` on the decoded array: does it return? */
  method ParseAuthorizations(entries: seq<Authorization>, candidates: seq<Text>) returns (ok: bool)
    ensures ok == (entries != [] && AllPass(entries, candidates, {}))
  {
    hide PairKey, AllPass, EntryPasses;
    if |entries| == 0 || |entries| > MaximumPairs(|candidates|) {
      if AllPass(entries, candidates, {}) {
        PassingListIsShort(entries, candidates);
      }
      return false;
    }
    var seen: set<Text> := {};
    for i := 0 to |entries|
      invariant AllPass(entries, candidates, {}) == AllPass(entries[i..], candidates, seen)
    {
      var e := entries[i];
      PassStep(entries[i..], candidates, seen);
      assert entries[i..][1..] == entries[i + 1..];
      if !EntryPasses(e, candidates, seen) {
        return false;
      }
      seen := seen + {PairKey(e.left, e.right)};
    }
    NonePass(candidates, seen);
    ok := true;
  }

  lemma PassStep(entries: seq<Authorization>, candidates: seq<Text>, seen: set<Text>)
    requires entries != []
    ensures AllPass(entries, candidates, seen) <==>
      EntryPasses(entries[0], candidates, seen)
      && AllPass(entries[1..], candidates, seen + {PairKey(entries[0].left, entries[0].right)})
  {
  }

  lemma NonePass(candidates: seq<Text>, seen: set<Text>)
    ensures AllPass([], candidates, seen)
  {
  }

  // ---- The pigeonhole ----

  type Pair = set<Text>

  /** Pairs `{x, y}` with a fixed `x`: no more than there are choices of `y`. */
  lemma {:induction false} StarBound(ids: set<Text>, x: Text, pairs: set<Pair>)
    requires x !in ids && forall p :: p in pairs ==> exists y :: y in ids && p == {x, y}
    ensures |pairs| <= |ids|
    decreases |ids|
  {
    if pairs != {} {
      var p :| p in pairs;
      var y :| y in ids && p == {x, y};
      forall q | q in pairs - {p}
        ensures exists z :: z in ids - {y} && q == {x, z}
      {
        var z :| z in ids && q == {x, z};
        assert z in ids - {y};
      }
      StarBound(ids - {y}, x, pairs - {p});
    }
  }

  predicate IsPairOf(p: Pair, ids: set<Text>) { |p| == 2 && p <= ids }

  lemma OtherOne(p: Pair, x: Text)
    requires |p| == 2 && x in p
    ensures exists y :: y in p && y != x && p == {x, y}
  {
    var rest := p - {x};
    assert |rest| == 1;
    var y :| y in rest;
    assert |rest - {y}| == 0;
    assert p == {x, y};
  }

  /** A set of n ids has at most n(n-1)/2 unordered pairs. */
  lemma {:induction false} PairsBound(ids: set<Text>, pairs: set<Pair>)
    requires forall p :: p in pairs ==> IsPairOf(p, ids)
    ensures 2 * |pairs| <= |ids| * (|ids| - 1)
    decreases |ids|
  {
    if ids == {} {
      assert forall p :: p in pairs ==> p == {} && |p| == 2;
      assert pairs == {};
    } else {
      var x :| x in ids;
      var rest := ids - {x};
      var star := set p | p in pairs && x in p;
      forall p | p in star
        ensures exists y :: y in rest && p == {x, y}
      {
        OtherOne(p, x);
        var y :| y in p && y != x && p == {x, y};
        assert y in rest;
      }
      StarBound(rest, x, star);
      PairsBound(rest, pairs - star);
      assert pairs == star + (pairs - star) && |pairs| == |star| + |pairs - star|;
      Triangle(|rest|, |star|, |pairs - star|);
    }
  }

  lemma Triangle(n: nat, a: nat, b: nat)
    requires a <= n && 2 * b <= n * (n - 1)
    ensures 2 * (a + b) <= (n + 1) * n
  {
    assert (n + 1) * n == n * (n - 1) + 2 * n;
  }

  function PairsOf(entries: seq<Authorization>): set<Pair>
  {
    set e | e in entries :: {e.left, e.right}
  }

  lemma {:induction false} PassingPairs(entries: seq<Authorization>, candidates: seq<Text>, seen: set<Text>)
    requires AllPass(entries, candidates, seen)
    ensures |PairsOf(entries)| == |entries|
    ensures forall e :: e in entries ==>
      e.left != e.right && e.left in candidates && e.right in candidates && PairKey(e.left, e.right) !in seen
    decreases |entries|
  {
    hide PairKey;
    if entries != [] {
      var e, rest := entries[0], entries[1..];
      assert entries == [e] + rest;
      PassingPairs(rest, candidates, seen + {PairKey(e.left, e.right)});
      forall f | f in rest
        ensures {f.left, f.right} != {e.left, e.right}
      {
        KeyIsPair(e.left, e.right, f.left, f.right);
        SamePair(e.left, e.right, f.left, f.right);
      }
      assert PairsOf(entries) == PairsOf(rest) + {{e.left, e.right}};
    }
  }

  lemma SamePair(a: Text, b: Text, c: Text, d: Text)
    ensures {a, b} == {c, d} ==> (a == c && b == d) || (a == d && b == c)
  {
    if {a, b} == {c, d} {
      assert a in {c, d} && b in {c, d} && c in {a, b} && d in {a, b};
    }
  }

  lemma {:induction false} SetOfSeq(s: seq<Text>)
    ensures |(set x | x in s)| <= |s|
    decreases |s|
  {
    if s != [] {
      SetOfSeq(s[1..]);
      assert s == [s[0]] + s[1..];
      assert (set x | x in s) == (set x | x in s[1..]) + {s[0]};
    }
  }

  /** A valid entry by itself: two different candidates. */
  predicate IsSound(e: Authorization, candidates: seq<Text>)
  {
    e.left != [] && e.right != [] && e.left != e.right && e.left in candidates && e.right in candidates && e.fieldsOk
  }

  /** The list passes exactly when each entry is valid by itself and no two are about
      the same unordered pair. */
  lemma {:induction false} AllPassIff(entries: seq<Authorization>, candidates: seq<Text>, seen: set<Text>)
    ensures AllPass(entries, candidates, seen)
       <==> && (forall e :: e in entries ==> IsSound(e, candidates) && PairKey(e.left, e.right) !in seen)
            && (forall i, j :: 0 <= i < j < |entries| ==>
                  {entries[i].left, entries[i].right} != {entries[j].left, entries[j].right})
    decreases |entries|
  {
    hide PairKey;
    if entries != [] {
      var e, rest := entries[0], entries[1..];
      var key := PairKey(e.left, e.right);
      assert entries == [e] + rest;
      AllPassIff(rest, candidates, seen + {key});
      forall f | f in rest
        ensures PairKey(f.left, f.right) == key <==> {f.left, f.right} == {e.left, e.right}
      {
        KeyIsPair(e.left, e.right, f.left, f.right);
        SamePair(e.left, e.right, f.left, f.right);
      }
      SplitPairs(entries);
    }
  }

  lemma SplitPairs(entries: seq<Authorization>)
    requires entries != []
    ensures (forall i, j :: 0 <= i < j < |entries| ==>
               {entries[i].left, entries[i].right} != {entries[j].left, entries[j].right})
       <==> && (forall f :: f in entries[1..] ==> {f.left, f.right} != {entries[0].left, entries[0].right})
            && (forall i, j :: 0 <= i < j < |entries[1..]| ==>
                  {entries[1..][i].left, entries[1..][i].right} != {entries[1..][j].left, entries[1..][j].right})
  {
    var rest := entries[1..];
    assert forall i :: 0 < i < |entries| ==> entries[i] == rest[i - 1];
    assert forall i :: 0 <= i < |rest| ==> rest[i] == entries[i + 1];
  }

  /** The early bound rejects nothing valid: a list whose entries would all be
      accepted is never longer, even when candidates repeat. */
  lemma PassingListIsShort(entries: seq<Authorization>, candidates: seq<Text>)
    requires AllPass(entries, candidates, {})
    ensures |entries| <= MaximumPairs(|candidates|) && 2 * MaximumPairs(|candidates|) == |candidates| * (|candidates| - 1)
  {
    hide PairKey, AllPass;
    var ids := set x | x in candidates;
    PassingPairs(entries, candidates, {});
    forall p | p in PairsOf(entries)
      ensures IsPairOf(p, ids)
    {
    }
    PairsBound(ids, PairsOf(entries));
    SetOfSeq(candidates);
    Monotone(|ids|, |candidates|);
    TriangleIsEven(|candidates|);
  }

  lemma {:induction false} TriangleIsEven(n: nat)
    ensures n * (n - 1) % 2 == 0
    decreases n
  {
    if n > 0 {
      TriangleIsEven(n - 1);
      assert n * (n - 1) == (n - 1) * (n - 2) + 2 * (n - 1);
    }
  }

  lemma Monotone(m: nat, n: nat)
    requires m <= n
    ensures m * (m - 1) <= n * (n - 1)
  {
    if m > 0 {
      assert n * (n - 1) == m * (m - 1) + (n - m) * (n + m - 1);
    }
  }
}
