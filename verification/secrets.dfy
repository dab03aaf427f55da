/** Masking secrets in text (internal/secrets/replacer.go). Strings are sequences of bytes. */
module Secrets {
  import opened Basics

  datatype Pair = Pair(secret: string, placeholder: string)

  /** What strings.NewReplacer is given: no empty old string, see Reload. */
  type Pairs = ps: seq<Pair> | forall p <- ps :: p.secret != "" witness []

  type Env = map<string, string>

  function Placeholder(key: string): string
  {
    "{ env." + key + " }"
  }

  // ----- strings.Replacer, as documented -------------------------------------------------

  /** The first pair, in argument order, whose old string starts the text. */
  function FirstMatch(pairs: Pairs, text: string): (i: Option<nat>)
    ensures i.Some? ==> i.value < |pairs| && pairs[i.value].secret <= text
                        && forall j :: 0 <= j < i.value ==> !(pairs[j].secret <= text)
    ensures i.None? ==> forall j :: 0 <= j < |pairs| ==> !(pairs[j].secret <= text)
  {
    if pairs == [] then None
    else if pairs[0].secret <= text then Some(0)
    else
      assert forall j :: 1 <= j < |pairs| ==> pairs[j] == pairs[1..][j - 1];
      match FirstMatch(pairs[1..], text)
      case None => None
      case Some(i) => Some(i + 1)
  }

  /** Left to right, without overlaps. */
  function Replace(pairs: Pairs, text: string): string
  {
    if text == "" then "" else
    match FirstMatch(pairs, text)
    case Some(i) => pairs[i].placeholder + Replace(pairs, text[|pairs[i].secret|..])
    case None => text[..1] + Replace(pairs, text[1..])
  }

  // ----- the replacer -----------------------------------------------------------------------

  /** An order of the keys that the sort may leave behind: all keys, longest secret first. The sort is
      not stable and the map it starts from has no order, so any such order is possible. */
  ghost predicate Admissible(all: Env, keys: seq<string>)
  {
    multiset(keys) == multiset(all.Keys) && ByLength(all, keys)
  }

  function PairsOf(all: Env, keys: seq<string>): Pairs
    requires forall k <- keys :: k in all
  {
    if keys == [] then []
    else
      var key := Last(keys);
      PairsOf(all, Front(keys)) + (if all[key] == "" then [] else [Pair(all[key], Placeholder(key))])
  }

  class Replacer {
    var pairs: Pairs

    ghost predicate Valid()
      reads this
    {
      LongestFirst(pairs)
    }

    constructor (all: Env)
      ensures Valid() && exists keys :: Admissible(all, keys) && pairs == PairsOf(all, keys)
    {
      pairs := [];
      new;
      ghost var keys := Reload(all);
    }

    method Reload(all: Env) returns (ghost order: seq<string>)
      modifies this
      ensures Valid() && Admissible(all, order) && pairs == PairsOf(all, order)
    {
      var keys := [];
      var todo := all.Keys;
      while todo != {}
        invariant todo <= all.Keys && multiset(keys) + multiset(todo) == multiset(all.Keys)
        decreases |todo|
      {
        var k :| k in todo;
        todo := todo - {k};
        keys := keys + [k];
      }
      assert multiset(keys) == multiset(all.Keys);
      forall k | k in keys ensures k in all {
        assert k in multiset(keys);
      }
      keys := SortByLength(all, keys);

      var built: Pairs := [];
      for i := 0 to |keys|
        invariant built == PairsOf(all, keys[..i])
      {
        assert Front(keys[..i + 1]) == keys[..i];
        if all[keys[i]] != "" {
          built := built + [Pair(all[keys[i]], Placeholder(keys[i]))];
        }
      }
      assert keys[..|keys|] == keys;
      pairs := built;
      order := keys;
      PairsLongestFirst(all, keys);
    }

    /** The text as it leaves the system. */
    method ReplaceText(text: string) returns (masked: string)
      requires Valid()
      ensures Masks(pairs, text, masked)
    {
      masked := Replace(pairs, text);
      ReplaceMasks(pairs, text);
    }
  }

  function Length(all: Env, key: string): nat
  {
    if key in all then |all[key]| else 0
  }

  predicate Descending(lengths: seq<nat>)
  {
    forall i, j :: 0 <= i < j < |lengths| ==> lengths[i] >= lengths[j]
  }

  function Lengths(all: Env, keys: seq<string>): seq<nat>
  {
    seq(|keys|, i requires 0 <= i < |keys| => Length(all, keys[i]))
  }

  predicate ByLength(all: Env, keys: seq<string>)
  {
    (forall k <- keys :: k in all) && Descending(Lengths(all, keys))
  }

  /** sort.Slice with a comparison by length. */
  method SortByLength(all: Env, keys: seq<string>) returns (sorted: seq<string>)
    requires forall k <- keys :: k in all
    ensures multiset(sorted) == multiset(keys) && ByLength(all, sorted)
  {
    sorted := [];
    for n := 0 to |keys|
      invariant multiset(sorted) == multiset(keys[..n]) && ByLength(all, sorted)
    {
      assert keys[..n + 1] == keys[..n] + [keys[n]] && keys[n] in keys;
      var p := |sorted|;
      while p > 0 && Length(all, sorted[p - 1]) < Length(all, keys[n])
        invariant 0 <= p <= |sorted|
        invariant p < |sorted| ==> Length(all, sorted[p]) < Length(all, keys[n])
      {
        p := p - 1;
      }
      InsertKeepsOrder(all, sorted, p, keys[n]);
      sorted := sorted[..p] + [keys[n]] + sorted[p..];
    }
    assert keys[..|keys|] == keys;
  }

  lemma InsertKeepsOrder(all: Env, sorted: seq<string>, p: nat, key: string)
    requires ByLength(all, sorted) && key in all && p <= |sorted|
    requires p > 0 ==> Length(all, sorted[p - 1]) >= Length(all, key)
    requires p < |sorted| ==> Length(all, sorted[p]) < Length(all, key)
    ensures ByLength(all, sorted[..p] + [key] + sorted[p..])
    ensures multiset(sorted[..p] + [key] + sorted[p..]) == multiset(sorted) + multiset{key}
  {
    var lengths := Lengths(all, sorted);
    assert sorted == sorted[..p] + sorted[p..];
    assert lengths[..p] == Lengths(all, sorted[..p]) && lengths[p..] == Lengths(all, sorted[p..]);
    LengthsConcat(all, sorted[..p], [key]);
    LengthsConcat(all, sorted[..p] + [key], sorted[p..]);
    assert Lengths(all, [key]) == [Length(all, key)];
    InsertDescending(lengths, p, Length(all, key));
    InsertMembers(all, sorted[..p], key, sorted[p..]);
    InsertCounts(sorted[..p], key, sorted[p..]);
  }

  lemma InsertMembers(all: Env, a: seq<string>, key: string, b: seq<string>)
    requires (forall k <- a :: k in all) && key in all && (forall k <- b :: k in all)
    ensures forall k <- a + [key] + b :: k in all
  {
  }

  lemma InsertCounts(a: seq<string>, key: string, b: seq<string>)
    ensures multiset(a + [key] + b) == multiset(a + b) + multiset{key}
  {
  }

  lemma LengthsConcat(all: Env, a: seq<string>, b: seq<string>)
    ensures Lengths(all, a + b) == Lengths(all, a) + Lengths(all, b)
  {
  }

  lemma InsertDescending(lengths: seq<nat>, p: nat, n: nat)
    requires Descending(lengths) && p <= |lengths|
    requires p > 0 ==> lengths[p - 1] >= n
    requires p < |lengths| ==> lengths[p] < n
    ensures Descending(lengths[..p] + [n] + lengths[p..])
  {
  }

  // ----- what masking does -------------------------------------------------------------------

  datatype Segment = Copied(c: char) | Masked(pair: Pair)

  function Segments(pairs: Pairs, text: string): seq<Segment>
  {
    if text == "" then [] else
    match FirstMatch(pairs, text)
    case Some(i) => [Masked(pairs[i])] + Segments(pairs, text[|pairs[i].secret|..])
    case None => [Copied(text[0])] + Segments(pairs, text[1..])
  }

  function Source(segs: seq<Segment>): string
  {
    if segs == [] then "" else
    (match segs[0] case Copied(c) => [c] case Masked(p) => p.secret) + Source(segs[1..])
  }

  function Output(segs: seq<Segment>): string
  {
    if segs == [] then "" else
    (match segs[0] case Copied(c) => [c] case Masked(p) => p.placeholder) + Output(segs[1..])
  }

  /** Position p of the source lies in a masked segment. */
  predicate Covered(segs: seq<Segment>, p: nat)
  {
    segs != [] &&
    match segs[0]
    case Copied(_) => p > 0 && Covered(segs[1..], p - 1)
    case Masked(pair) => if p < |pair.secret| then true else Covered(segs[1..], p - |pair.secret|)
  }

  /** Every masked segment is the longest secret that matches at its place in the text. */
  predicate AllLongest(pairs: Pairs, text: string, segs: seq<Segment>)
  {
    segs == [] || (
      match segs[0]
      case Copied(_) => text != "" && AllLongest(pairs, text[1..], segs[1..])
      case Masked(pair) =>
        && pair in pairs && pair.secret <= text
        && (forall q <- pairs :: q.secret <= text ==> |q.secret| <= |pair.secret|)
        && AllLongest(pairs, text[|pair.secret|..], segs[1..]))
  }

  predicate LongestFirst(pairs: Pairs)
  {
    forall i, j :: 0 <= i < j < |pairs| ==> |pairs[i].secret| >= |pairs[j].secret|
  }

  /** The text is cut into copied characters and whole secrets, and the output is the same cut with every
      secret replaced by its placeholder. */
  lemma {:induction false} SegmentsExplain(pairs: Pairs, text: string)
    ensures Source(Segments(pairs, text)) == text
    ensures Output(Segments(pairs, text)) == Replace(pairs, text)
    decreases |text|
  {
    if text != "" {
      match FirstMatch(pairs, text) {
        case Some(i) =>
          SegmentsExplain(pairs, text[|pairs[i].secret|..]);
          assert text == pairs[i].secret + text[|pairs[i].secret|..];
        case None =>
          SegmentsExplain(pairs, text[1..]);
          assert text == [text[0]] + text[1..];
          assert text[..1] == [text[0]];
      }
    }
  }

  predicate Occurs(text: string, p: nat, secret: string)
  {
    p + |secret| <= |text| && forall j :: 0 <= j < |secret| ==> text[p + j] == secret[j]
  }

  lemma StartOccurrence(text: string, p: nat, secret: string)
    requires Occurs(text, p, secret)
    ensures p == 0 ==> secret <= text
  {
  }

  lemma LaterOccurrence(text: string, n: nat, p: nat, secret: string)
    requires n <= p && Occurs(text, p, secret)
    ensures Occurs(text[n..], p - n, secret)
  {
  }

  /** No secret gets through: wherever a secret occurs in the text, its first byte is masked. */
  lemma {:induction false} EveryOccurrenceStartsMasked(pairs: Pairs, text: string, p: nat, pair: Pair)
    requires pair in pairs && Occurs(text, p, pair.secret)
    ensures Covered(Segments(pairs, text), p)
    decreases |text|
  {
    match FirstMatch(pairs, text) {
      case Some(i) =>
        var n := |pairs[i].secret|;
        if p >= n {
          LaterOccurrence(text, n, p, pair.secret);
          EveryOccurrenceStartsMasked(pairs, text[n..], p - n, pair);
        }
      case None =>
        StartOccurrence(text, p, pair.secret);
        LaterOccurrence(text, 1, p, pair.secret);
        EveryOccurrenceStartsMasked(pairs, text[1..], p - 1, pair);
    }
  }

  lemma {:induction false} MasksLongest(pairs: Pairs, text: string)
    requires LongestFirst(pairs)
    ensures AllLongest(pairs, text, Segments(pairs, text))
    decreases |text|
  {
    if text != "" {
      match FirstMatch(pairs, text) {
        case Some(i) =>
          MasksLongest(pairs, text[|pairs[i].secret|..]);
          forall q | q in pairs && q.secret <= text ensures |q.secret| <= |pairs[i].secret| {
            var j :| 0 <= j < |pairs| && pairs[j] == q;
          }
        case None =>
          MasksLongest(pairs, text[1..]);
      }
    }
  }

  // ----- masking, without saying how -----------------------------------------------------------

  /** A cut of the text into copied characters and longest secrets that covers the start of every
      occurrence. */
  ghost predicate MasksAs(pairs: Pairs, text: string, segs: seq<Segment>)
  {
    && Source(segs) == text && AllLongest(pairs, text, segs)
    && forall pair, p: nat :: pair in pairs && Occurs(text, p, pair.secret) ==> Covered(segs, p)
  }

  ghost predicate Masks(pairs: Pairs, text: string, masked: string)
  {
    exists segs :: MasksAs(pairs, text, segs) && masked == Output(segs)
  }

  lemma ReplaceMasks(pairs: Pairs, text: string)
    requires LongestFirst(pairs)
    ensures MasksAs(pairs, text, Segments(pairs, text))
    ensures Masks(pairs, text, Replace(pairs, text))
  {
    var segs := Segments(pairs, text);
    SegmentsExplain(pairs, text);
    MasksLongest(pairs, text);
    forall pair, p: nat | pair in pairs && Occurs(text, p, pair.secret) ensures Covered(segs, p) {
      EveryOccurrenceStartsMasked(pairs, text, p, pair);
    }
    assert MasksAs(pairs, text, segs) && Replace(pairs, text) == Output(segs);
  }

  /** Equal secrets have equal placeholders. */
  predicate Functional(pairs: Pairs)
  {
    forall p, q :: p in pairs && q in pairs && p.secret == q.secret ==> p == q
  }

  /** How much of the text a segment stands for. */
  function SegmentWidth(s: Segment): nat
  {
    match s case Copied(_) => 1 case Masked(p) => |p.secret|
  }

  lemma MasksRest(pairs: Pairs, text: string, segs: seq<Segment>, n: nat, rest: string)
    requires MasksAs(pairs, text, segs) && segs != [] && n == SegmentWidth(segs[0])
    requires n <= |text| && rest == text[n..]
    ensures MasksAs(pairs, rest, segs[1..])
  {
    SourceRest(segs);
    forall pair, p: nat | pair in pairs && Occurs(rest, p, pair.secret) ensures Covered(segs[1..], p) {
      EarlierOccurrence(text, n, p, pair.secret);
      CoveredLater(segs, n, p);
    }
  }

  lemma CoveredLater(segs: seq<Segment>, n: nat, p: nat)
    requires segs != [] && n == SegmentWidth(segs[0])
    ensures Covered(segs, n + p) <==> Covered(segs[1..], p)
  {
  }

  lemma EarlierOccurrence(text: string, n: nat, p: nat, secret: string)
    requires n <= |text| && Occurs(text[n..], p, secret)
    ensures Occurs(text, n + p, secret)
  {
    forall j | 0 <= j < |secret| ensures text[n + p + j] == secret[j] {
      assert text[n..][p + j] == secret[j];
    }
  }

  lemma SourceRest(segs: seq<Segment>)
    requires segs != []
    ensures var n := SegmentWidth(segs[0]);
            n <= |Source(segs)| && Source(segs)[n..] == Source(segs[1..])
  {
  }

  /** A secret matches at the start of the text if and only if the cut starts with a longest such one. */
  lemma MasksFirst(pairs: Pairs, text: string, segs: seq<Segment>)
    requires MasksAs(pairs, text, segs) && text != ""
    ensures segs != []
    ensures segs[0].Masked? <==> FirstMatch(pairs, text).Some?
    ensures segs[0].Masked? ==> segs[0].pair in pairs && segs[0].pair.secret <= text
    ensures segs[0].Masked? ==> forall q :: q in pairs && q.secret <= text ==> |q.secret| <= |segs[0].pair.secret|
    ensures segs[0].Copied? ==> segs[0].c == text[0]
  {
    if FirstMatch(pairs, text).Some? {
      var pair := pairs[FirstMatch(pairs, text).value];
      assert text[0..] == text;
      assert Occurs(text, 0, pair.secret);
      assert Covered(segs, 0);
    }
  }

  /** The specification leaves no choice: two texts that mask the same one are equal. */
  lemma {:induction false} SameMasking(pairs: Pairs, text: string, a: seq<Segment>, b: seq<Segment>)
    requires Functional(pairs) && MasksAs(pairs, text, a) && MasksAs(pairs, text, b)
    ensures a == b
    decreases |text|
  {
    if text == "" {
      NothingToCut(a);
      NothingToCut(b);
    } else {
      SameFirst(pairs, text, a, b);
      var n := SegmentWidth(a[0]);
      SourceRest(a);
      MasksRest(pairs, text, a, n, text[n..]);
      MasksRest(pairs, text, b, n, text[n..]);
      SameMasking(pairs, text[n..], a[1..], b[1..]);
      SameSegments(a, b);
    }
  }

  lemma SameFirst(pairs: Pairs, text: string, a: seq<Segment>, b: seq<Segment>)
    requires Functional(pairs) && MasksAs(pairs, text, a) && MasksAs(pairs, text, b) && text != ""
    ensures a != [] && b != [] && a[0] == b[0] && 0 < SegmentWidth(a[0])
  {
    MasksFirst(pairs, text, a);
    MasksFirst(pairs, text, b);
    if a[0].Masked? {
      SamePrefix(a[0].pair.secret, b[0].pair.secret, text);
    }
  }

  lemma SameSegments(a: seq<Segment>, b: seq<Segment>)
    requires a != [] && b != [] && a[0] == b[0] && a[1..] == b[1..]
    ensures a == b
  {
    assert a == [a[0]] + a[1..] && b == [b[0]] + b[1..];
  }

  lemma NothingToCut(segs: seq<Segment>)
    requires Source(segs) == "" && forall s <- segs :: s.Masked? ==> s.pair.secret != ""
    ensures segs == []
  {
  }

  /** So the masked text is determined by the pairs alone, in whatever order they are listed. */
  lemma MasksIsReplace(pairs: Pairs, text: string, masked: string)
    requires LongestFirst(pairs) && Functional(pairs)
    ensures Masks(pairs, text, masked) <==> masked == Replace(pairs, text)
  {
    ReplaceMasks(pairs, text);
    SegmentsExplain(pairs, text);
    if Masks(pairs, text, masked) {
      var segs :| MasksAs(pairs, text, segs) && masked == Output(segs);
      SameMasking(pairs, text, segs, Segments(pairs, text));
    }
  }

  lemma {:induction false} PairsOfKeys(all: Env, keys: seq<string>)
    requires forall k <- keys :: k in all
    ensures forall p <- PairsOf(all, keys) :: exists k <- keys :: all[k] == p.secret && p.placeholder == Placeholder(k)
    ensures forall k <- keys :: all[k] != "" ==> Pair(all[k], Placeholder(k)) in PairsOf(all, keys)
  {
    if keys != [] {
      PairsOfKeys(all, Front(keys));
      assert keys == Front(keys) + [Last(keys)];
    }
  }

  /** Longest-first keys make longest-first pairs. */
  lemma {:induction false} PairsLongestFirst(all: Env, keys: seq<string>)
    requires ByLength(all, keys)
    ensures LongestFirst(PairsOf(all, keys))
  {
    if keys != [] {
      var front := Front(keys);
      var lengths := Lengths(all, keys);
      assert Lengths(all, front) == Front(lengths);
      PairsLongestFirst(all, front);
      PairsOfKeys(all, front);
      var ps := PairsOf(all, front);
      forall i | 0 <= i < |ps| ensures |ps[i].secret| >= |all[Last(keys)]| {
        assert ps[i] in ps;
        var k :| k in front && all[k] == ps[i].secret && ps[i].placeholder == Placeholder(k);
        var j :| 0 <= j < |front| && front[j] == k;
        assert lengths[j] == |all[k]| && Last(lengths) == |all[Last(keys)]|;
      }
    }
  }

  /** What the service writes out: for every possible key order, all occurrences start masked, each mask
      covers the longest secret matching there, and everything else is copied. */
  lemma MaskingIsComplete(all: Env, keys: seq<string>, text: string)
    requires Admissible(all, keys)
    ensures var segs := Segments(PairsOf(all, keys), text);
            && Source(segs) == text && Output(segs) == Replace(PairsOf(all, keys), text)
            && AllLongest(PairsOf(all, keys), text, segs)
            && forall k, p: nat :: k in all && all[k] != "" && Occurs(text, p, all[k]) ==> Covered(segs, p)
  {
    var pairs := PairsOf(all, keys);
    SegmentsExplain(pairs, text);
    PairsLongestFirst(all, keys);
    MasksLongest(pairs, text);
    PairsOfKeys(all, keys);
    forall k, p: nat | k in all && all[k] != "" && Occurs(text, p, all[k]) ensures Covered(Segments(pairs, text), p) {
      assert k in multiset(all.Keys);
      EveryOccurrenceStartsMasked(pairs, text, p, Pair(all[k], Placeholder(k)));
    }
  }

  lemma {:induction false} MaskedByPairs(pairs: Pairs, text: string)
    ensures forall s <- Segments(pairs, text) :: s.Masked? ==> s.pair in pairs
    decreases |text|
  {
    if text != "" {
      match FirstMatch(pairs, text) {
        case Some(i) => MaskedByPairs(pairs, text[|pairs[i].secret|..]);
        case None => MaskedByPairs(pairs, text[1..]);
      }
    }
  }

  /** Every mask names a key whose secret it stands for. */
  lemma MasksNameTheirKey(all: Env, keys: seq<string>, text: string)
    requires Admissible(all, keys)
    ensures forall s <- Segments(PairsOf(all, keys), text) :: s.Masked? ==>
              exists k :: k in all && s.pair == Pair(all[k], "{ env." + k + " }")
  {
    MaskedByPairs(PairsOf(all, keys), text);
    PairsOfKeys(all, keys);
    forall s | s in Segments(PairsOf(all, keys), text) && s.Masked?
      ensures exists k :: k in all && s.pair == Pair(all[k], "{ env." + k + " }")
    {
      var k :| k in keys && all[k] == s.pair.secret && s.pair.placeholder == Placeholder(k);
      assert k in all && s.pair == Pair(all[k], "{ env." + k + " }");
    }
  }

  // ----- the order does not matter, if and only if no two secrets are equal -------------------

  /** Non-empty secrets are pairwise different. */
  predicate Distinct(all: Env)
  {
    forall k, l :: k in all && l in all && k != l && all[k] == all[l] ==> all[k] == ""
  }

  ghost predicate OrderIndependent(all: Env)
  {
    forall a, b, text :: Admissible(all, a) && Admissible(all, b) ==>
      Replace(PairsOf(all, a), text) == Replace(PairsOf(all, b), text)
  }

  /** With the same longest-first pairs in another order, the same pair is found, if equal secrets have
      equal placeholders. */
  lemma SameMatch(a: Pairs, b: Pairs, text: string)
    requires LongestFirst(a) && LongestFirst(b) && forall p :: p in a <==> p in b
    requires forall p, q :: p in a && q in a && p.secret == q.secret ==> p == q
    ensures FirstMatch(a, text).Some? <==> FirstMatch(b, text).Some?
    ensures FirstMatch(a, text).Some? ==> a[FirstMatch(a, text).value] == b[FirstMatch(b, text).value]
  {
    var i, j := FirstMatch(a, text), FirstMatch(b, text);
    if i.Some? {
      assert a[i.value] in a;
      FoundLongest(b, text, a[i.value]);
    }
    if j.Some? {
      assert b[j.value] in b;
      FoundLongest(a, text, b[j.value]);
    }
    if i.Some? && j.Some? {
      SamePrefix(a[i.value].secret, b[j.value].secret, text);
    }
  }

  lemma FoundLongest(pairs: Pairs, text: string, q: Pair)
    requires LongestFirst(pairs) && q in pairs && q.secret <= text
    ensures FirstMatch(pairs, text).Some?
    ensures |pairs[FirstMatch(pairs, text).value].secret| >= |q.secret|
  {
    var j :| 0 <= j < |pairs| && pairs[j] == q;
  }

  lemma SamePrefix(a: string, b: string, text: string)
    requires a <= text && b <= text && |a| == |b|
    ensures a == b
  {
  }

  lemma {:induction false} SameReplace(a: Pairs, b: Pairs, text: string)
    requires LongestFirst(a) && LongestFirst(b) && forall p :: p in a <==> p in b
    requires forall p, q :: p in a && q in a && p.secret == q.secret ==> p == q
    ensures Replace(a, text) == Replace(b, text)
    decreases |text|
  {
    if text != "" {
      SameMatch(a, b, text);
      match FirstMatch(a, text) {
        case Some(i) => SameReplace(a, b, text[|a[i].secret|..]);
        case None => SameReplace(a, b, text[1..]);
      }
    }
  }

  lemma AdmissibleKeys(all: Env, keys: seq<string>)
    requires Admissible(all, keys)
    ensures forall k :: k in keys <==> k in all
  {
    forall k ensures k in keys <==> k in all {
      assert k in multiset(keys) <==> k in multiset(all.Keys);
    }
  }

  lemma SamePairs(all: Env, a: seq<string>, b: seq<string>, p: Pair)
    requires Admissible(all, a) && Admissible(all, b) && p in PairsOf(all, a)
    ensures p in PairsOf(all, b)
  {
    AdmissibleKeys(all, a);
    AdmissibleKeys(all, b);
    PairsOfKeys(all, a);
    PairsOfKeys(all, b);
    var k :| k in a && all[k] == p.secret && p.placeholder == Placeholder(k);
    assert k in b && p == Pair(all[k], Placeholder(k));
  }

  lemma DistinctIsEnough(all: Env, a: seq<string>, b: seq<string>, text: string)
    requires Distinct(all) && Admissible(all, a) && Admissible(all, b)
    ensures Replace(PairsOf(all, a), text) == Replace(PairsOf(all, b), text)
  {
    PairsLongestFirst(all, a);
    PairsLongestFirst(all, b);
    PairsOfKeys(all, a);
    forall p ensures p in PairsOf(all, a) <==> p in PairsOf(all, b) {
      if p in PairsOf(all, a) {
        SamePairs(all, a, b, p);
      }
      if p in PairsOf(all, b) {
        SamePairs(all, b, a, p);
      }
    }
    SameReplace(PairsOf(all, a), PairsOf(all, b), text);
  }

  lemma {:induction false} LongestKey(all: Env, keys: set<string>) returns (m: string)
    requires keys != {} && keys <= all.Keys
    ensures m in keys && forall k <- keys :: |all[k]| <= |all[m]|
    decreases keys
  {
    m :| m in keys;
    if keys != {m} {
      var rest := LongestKey(all, keys - {m});
      var first := m;
      m := if |all[m]| >= |all[rest]| then m else rest;
      forall k | k in keys ensures |all[k]| <= |all[m]| {
        assert k == first || k in keys - {first};
      }
    }
  }

  lemma {:induction false} SomeOrder(all: Env, keys: set<string>) returns (order: seq<string>)
    requires keys <= all.Keys
    ensures multiset(order) == multiset(keys) && ByLength(all, order)
    decreases keys
  {
    if keys == {} {
      order := [];
    } else {
      var m := LongestKey(all, keys);
      var rest := SomeOrder(all, keys - {m});
      order := [m] + rest;
      LengthsConcat(all, [m], rest);
      forall k | k in rest ensures k in keys {
        assert k in multiset(rest);
      }
      forall i | 0 <= i < |rest| ensures Lengths(all, rest)[i] <= |all[m]| {
        assert rest[i] in rest;
      }
    }
  }

  /** In a longest-first list, the text of a secret is masked by the first pair with that very secret. */
  lemma FirstOfValue(all: Env, keys: seq<string>, value: string) returns (f: nat)
    requires ByLength(all, keys) && value != "" && exists k <- keys :: all[k] == value
    ensures f < |keys| && all[keys[f]] == value && (forall i :: 0 <= i < f ==> all[keys[i]] != value)
    ensures Replace(PairsOf(all, keys), value) == Placeholder(keys[f])
  {
    f := FirstIndex(all, keys, value);
    PairsLongestFirst(all, keys);
    PairsOfKeys(all, keys);
    assert keys[f] in keys;
    var i := WholeMatch(PairsOf(all, keys), value, Pair(value, Placeholder(keys[f])));
    PairsInOrder(all, keys, value, f, i);
    ReplaceWhole(PairsOf(all, keys), value, i);
  }

  /** The text of a secret is matched by the first pair with this very secret. */
  lemma WholeMatch(pairs: Pairs, value: string, mine: Pair) returns (i: nat)
    requires LongestFirst(pairs) && mine in pairs && mine.secret == value
    ensures FirstMatch(pairs, value) == Some(i) && i < |pairs| && pairs[i].secret == value
    ensures forall j :: 0 <= j < i ==> pairs[j].secret != value
  {
    var j :| 0 <= j < |pairs| && pairs[j] == mine;
    i := FirstMatch(pairs, value).value;
    assert i <= j && |pairs[i].secret| >= |value|;
  }

  lemma ReplaceWhole(pairs: Pairs, value: string, i: nat)
    requires value != "" && FirstMatch(pairs, value) == Some(i) && pairs[i].secret == value
    ensures Replace(pairs, value) == pairs[i].placeholder
  {
    assert value[|value|..] == "";
    assert pairs[i].placeholder + "" == pairs[i].placeholder;
  }

  lemma FirstIndex(all: Env, keys: seq<string>, value: string) returns (f: nat)
    requires (forall k <- keys :: k in all) && exists k <- keys :: all[k] == value
    ensures f < |keys| && all[keys[f]] == value && (forall i :: 0 <= i < f ==> all[keys[i]] != value)
  {
    f := 0;
    while all[keys[f]] != value
      invariant f < |keys| && forall i :: 0 <= i < f ==> all[keys[i]] != value
      invariant exists j :: f <= j < |keys| && all[keys[j]] == value
      decreases |keys| - f
    {
      f := f + 1;
    }
  }

  /** The first pair with a secret comes from the first key with it. */
  lemma {:induction false} PairsInOrder(all: Env, keys: seq<string>, value: string, f: nat, i: nat)
    requires (forall k <- keys :: k in all) && value != ""
    requires f < |keys| && all[keys[f]] == value && forall j :: 0 <= j < f ==> all[keys[j]] != value
    requires i < |PairsOf(all, keys)| && PairsOf(all, keys)[i].secret == value
    requires forall j :: 0 <= j < i ==> PairsOf(all, keys)[j].secret != value
    ensures PairsOf(all, keys)[i].placeholder == Placeholder(keys[f])
    decreases |keys|
  {
    var front := Front(keys);
    if f < |front| {
      PairsOfKeys(all, front);
      assert keys[f] == front[f] && front[f] in front;
      var pairs := PairsOf(all, front);
      MorePairs(all, keys);
      assert Pair(value, Placeholder(keys[f])) in pairs;
      var j :| 0 <= j < |pairs| && pairs[j] == Pair(value, Placeholder(keys[f]));
      assert PairsOf(all, keys)[j] == pairs[j];
      PairsInOrder(all, front, value, f, i);
    } else {
      assert forall k <- front :: exists j :: 0 <= j < f && k == keys[j];
      NoPairOf(all, front, value);
    }
  }

  lemma MorePairs(all: Env, keys: seq<string>)
    requires keys != [] && forall k <- keys :: k in all
    ensures var pairs := PairsOf(all, Front(keys));
            && |pairs| <= |PairsOf(all, keys)|
            && forall j :: 0 <= j < |pairs| ==> PairsOf(all, keys)[j] == pairs[j]
  {
  }

  lemma NoPairOf(all: Env, keys: seq<string>, value: string)
    requires forall k <- keys :: k in all && all[k] != value
    ensures forall p <- PairsOf(all, keys) :: p.secret != value
  {
    PairsOfKeys(all, keys);
  }

  /** Two equal secrets: exchanging their keys gives another admissible order, and another output. */
  lemma DistinctIsNeeded(all: Env, k: string, l: string) returns (a: seq<string>, b: seq<string>)
    requires k in all && l in all && k != l && all[k] == all[l] != ""
    ensures Admissible(all, a) && Admissible(all, b)
    ensures Replace(PairsOf(all, a), all[k]) != Replace(PairsOf(all, b), all[k])
  {
    var value := all[k];
    a := SomeOrder(all, all.Keys);
    AdmissibleKeys(all, a);
    var f := FirstOfValue(all, a, value);
    var other := if a[f] == k then l else k;
    var g :| 0 <= g < |a| && a[g] == other;
    b := Swapped(a, f, g);
    SwapKeepsOrder(all, a, f, g);
    AdmissibleKeys(all, b);
    assert b[f] == other;
    var h := FirstOfValue(all, b, value);
    assert h == f by {
      assert forall i :: 0 <= i < f ==> b[i] == a[i];
    }
    PlaceholdersDiffer(a[f], other);
  }

  function Swapped(a: seq<string>, f: nat, g: nat): seq<string>
    requires f < |a| && g < |a|
  {
    a[f := a[g]][g := a[f]]
  }

  lemma SwapKeepsOrder(all: Env, a: seq<string>, f: nat, g: nat)
    requires f < |a| && g < |a| && Admissible(all, a) && all[a[f]] == all[a[g]]
    ensures Admissible(all, Swapped(a, f, g))
  {
    var b := Swapped(a, f, g);
    assert multiset(b) == multiset(a);
    assert Lengths(all, b) == Lengths(all, a);
    forall k | k in b ensures k in all {
      assert k in multiset(b);
      assert k in a;
    }
  }

  lemma PlaceholdersDiffer(k: string, l: string)
    requires k != l
    ensures Placeholder(k) != Placeholder(l)
  {
    assert Placeholder(k)[6..][..|k|] == k && |Placeholder(k)| == |k| + 8;
    assert Placeholder(l)[6..][..|l|] == l && |Placeholder(l)| == |l| + 8;
  }

  /** The masked text depends on nothing but the secrets, for every text, if and only if no two keys
      share a non-empty secret. */
  lemma OrderIndependentIffDistinct(all: Env)
    ensures OrderIndependent(all) <==> Distinct(all)
  {
    if Distinct(all) {
      forall a, b, text | Admissible(all, a) && Admissible(all, b)
        ensures Replace(PairsOf(all, a), text) == Replace(PairsOf(all, b), text)
      {
        DistinctIsEnough(all, a, b, text);
      }
    } else {
      var k, l :| k in all && l in all && k != l && all[k] == all[l] && all[k] != "";
      var a, b := DistinctIsNeeded(all, k, l);
    }
  }
}
