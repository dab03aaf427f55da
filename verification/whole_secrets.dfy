/** Masking starts at the first byte of every secret in a text (module Secrets). Whether it also reaches
    the last one depends on how the secrets overlap. Texts are addressed by position here. */
module WholeSecrets {
  import opened Basics
  import opened Secrets

  lemma OccursInRest(text: string, p: nat, secret: string)
    requires p <= |text|
    ensures Occurs(text, p, secret) <==> secret <= text[p..]
  {
    if secret <= text[p..] {
      forall j | 0 <= j < |secret| ensures text[p + j] == secret[j] {
        assert text[p..][j] == secret[j];
      }
    }
  }

  /** The length of the secret that is masked where the replacement has come to position q; 0 if none is. */
  function MaskLength(pairs: Pairs, text: string, q: nat): (n: nat)
    requires q <= |text|
    ensures q + n <= |text|
  {
    FirstLength(pairs, text[q..])
  }

  /** The length of a longest secret that occurs at q, 0 if none does. */
  ghost predicate LongestAt(n: nat, pairs: Pairs, text: string, q: nat)
  {
    && q + n <= |text|
    && (n > 0 ==> exists a <- pairs :: |a.secret| == n && Occurs(text, q, a.secret))
    && (forall b <- pairs :: Occurs(text, q, b.secret) ==> 0 < |b.secret| <= n)
  }

  lemma MaskIsLongest(pairs: Pairs, text: string, q: nat)
    requires q <= |text| && LongestFirst(pairs)
    ensures LongestAt(MaskLength(pairs, text, q), pairs, text, q)
  {
    forall b | b in pairs && Occurs(text, q, b.secret) ensures 0 < |b.secret| <= MaskLength(pairs, text, q) {
      OccursInRest(text, q, b.secret);
      var j :| 0 <= j < |pairs| && pairs[j] == b;
    }
    match FirstMatch(pairs, text[q..]) {
      case Some(i) =>
        OccursInRest(text, q, pairs[i].secret);
        assert pairs[i] in pairs;
      case None =>
    }
  }

  /** The same for all positions. */
  function MaskLengths(pairs: Pairs, text: string): nat -> nat
  {
    (q: nat) => if q <= |text| then MaskLength(pairs, text, q) else 0
  }

  /** At every position of the text. */
  ghost predicate Longest(masks: nat -> nat, pairs: Pairs, text: string)
  {
    forall q: nat {:trigger LongestAt(masks(q), pairs, text, q)} :: q <= |text| ==> LongestAt(masks(q), pairs, text, q)
  }

  lemma MaskLengthsLongest(pairs: Pairs, text: string)
    requires LongestFirst(pairs)
    ensures Longest(MaskLengths(pairs, text), pairs, text)
  {
    forall q: nat | q <= |text| ensures LongestAt(MaskLengths(pairs, text)(q), pairs, text, q) {
      MaskIsLongest(pairs, text, q);
    }
  }

  /** The byte at p of a text of some size is masked, by a replacement that has come to q. */
  predicate MaskedFrom(masks: nat -> nat, size: nat, q: nat, p: nat)
    decreases size - q
  {
    q < size &&
    if masks(q) > 0 then q <= p && (p < q + masks(q) || MaskedFrom(masks, size, q + masks(q), p))
    else p > q && MaskedFrom(masks, size, q + 1, p)
  }

  /** Coverage of a text, given the length of the mask at its start. */
  predicate CoverRule(covered: (string, nat) -> bool, first: string -> nat, rest: string, d: nat)
  {
    var step := if first(rest) > 0 then first(rest) else 1;
    if rest == "" then !covered(rest, d)
    else step <= |rest| && (covered(rest, d) <==> if d < step then first(rest) > 0 else covered(rest[step..], d - step))
  }

  lemma {:induction false} WalkCovers(covered: (string, nat) -> bool, first: string -> nat, masks: nat -> nat,
                                      text: string, q: nat, d: nat)
    requires forall rest, d :: CoverRule(covered, first, rest, d)
    requires q <= |text| && forall q: nat :: q <= |text| ==> masks(q) == first(text[q..])
    ensures MaskedFrom(masks, |text|, q, q + d) <==> covered(text[q..], d)
    decreases |text| - q
  {
    assert CoverRule(covered, first, text[q..], d);
    var step := if masks(q) > 0 then masks(q) else 1;
    if q < |text| && d >= step {
      RestOfRest(text, q, step);
      WalkCovers(covered, first, masks, text, q + step, d - step);
    }
  }

  /** This is what the segments of the text say. */
  lemma MaskedIsCovered(pairs: Pairs, text: string, p: nat)
    ensures MaskedFrom(MaskLengths(pairs, text), |text|, 0, p) <==> Covered(Segments(pairs, text), p)
  {
    var covered := (rest: string, d: nat) => MaskedAt(pairs, rest, d);
    var first := rest => FirstLength(pairs, rest);
    forall rest, d ensures CoverRule(covered, first, rest, d) {
    }
    forall q: nat | q <= |text| ensures MaskLengths(pairs, text)(q) == first(text[q..]) {
    }
    WalkCovers(covered, first, MaskLengths(pairs, text), text, 0, p);
    assert text[0..] == text;
    MaskedAtIsCovered(pairs, text, p);
  }

  function FirstLength(pairs: Pairs, rest: string): (n: nat)
    ensures n <= |rest|
  {
    match FirstMatch(pairs, rest) case Some(i) => |pairs[i].secret| case None => 0
  }

  /** The byte d bytes into the rest is masked. */
  predicate MaskedAt(pairs: Pairs, rest: string, d: nat)
    decreases |rest|
  {
    rest != "" &&
    var n := FirstLength(pairs, rest);
    if n > 0 then d < n || MaskedAt(pairs, rest[n..], d - n) else d > 0 && MaskedAt(pairs, rest[1..], d - 1)
  }

  lemma {:induction false} MaskedAtIsCovered(pairs: Pairs, rest: string, d: nat)
    ensures MaskedAt(pairs, rest, d) <==> Covered(Segments(pairs, rest), d)
    decreases |rest|
  {
    if rest != "" {
      match FirstMatch(pairs, rest) {
        case Some(i) =>
          var n := |pairs[i].secret|;
          CoveredCons(Masked(pairs[i]), Segments(pairs, rest[n..]), d);
          if d >= n {
            MaskedAtIsCovered(pairs, rest[n..], d - n);
          }
        case None =>
          CoveredCons(Copied(rest[0]), Segments(pairs, rest[1..]), d);
          if d > 0 {
            MaskedAtIsCovered(pairs, rest[1..], d - 1);
          }
      }
    }
  }

  lemma CoveredCons(first: Segment, segs: seq<Segment>, d: nat)
    ensures Covered([first] + segs, d) <==>
            match first
            case Masked(a) => d < |a.secret| || Covered(segs, d - |a.secret|)
            case Copied(_) => d > 0 && Covered(segs, d - 1)
  {
    assert ([first] + segs)[1..] == segs;
  }

  lemma RestOfRest(text: string, q: nat, n: nat)
    requires q + n <= |text|
    ensures text[q..][n..] == text[q + n..]
  {
  }

  /** All bytes of an occurrence at p are masked. */
  predicate WhollyMasked(pairs: Pairs, text: string, p: nat, secret: string)
  {
    forall i: nat :: p <= i < p + |secret| ==> MaskedFrom(MaskLengths(pairs, text), |text|, 0, i)
  }

  /** Of no occurrence of a secret in any text a byte survives. */
  ghost predicate MasksOccurrences(pairs: Pairs)
  {
    forall text, p: nat, b: Pair :: b in pairs && Occurs(text, p, b.secret) ==> WhollyMasked(pairs, text, p, b.secret)
  }

  /** b starts i bytes into a and ends behind it. */
  predicate Overlap(a: string, b: string, i: nat)
  {
    0 < i < |a| < i + |b| && forall j :: 0 <= j < |a| - i ==> a[i + j] == b[j]
  }

  /** Both of them written out. */
  function Overlapped(a: string, b: string, i: nat): (text: string)
    requires Overlap(a, b, i)
    ensures |text| == i + |b| && Occurs(text, 0, a) && Occurs(text, i, b)
  {
    var text := a[..i] + b;
    assert forall j :: i <= j < |a| ==> text[j] == b[j - i] == a[i + (j - i)];
    text
  }

  /** Wherever two secrets overlap, and nothing else is in the text, the second is masked to its end. */
  ghost predicate MasksOverlaps(pairs: Pairs)
  {
    forall a, b, i: nat {:trigger Overlapped(a.secret, b.secret, i), a in pairs, b in pairs} ::
      a in pairs && b in pairs && Overlap(a.secret, b.secret, i) ==>
      WhollyMasked(pairs, Overlapped(a.secret, b.secret, i), i, b.secret)
  }

  // ----- replacement as a walk over positions ---------------------------------------------------

  /** What is in a text of some size is continued in another one from o on: there a mask gets longer only
      by reaching the end of the first. */
  ghost predicate Continued(front: nat -> nat, size: nat, masks: nat -> nat, o: nat)
  {
    forall q: nat :: q <= size ==> front(q) <= masks(o + q) && (q + masks(o + q) <= size ==> front(q) == masks(o + q))
  }

  /** Behind p everything is masked. */
  ghost predicate MaskedToEnd(masks: nat -> nat, size: nat, q: nat, p: nat)
  {
    forall k: nat :: p <= k < size ==> MaskedFrom(masks, size, q, k)
  }

  /** What is masked to its end stays masked when the text is continued. */
  lemma {:induction false} StaysMasked(front: nat -> nat, size: nat, masks: nat -> nat, o: nat, whole: nat, q: nat,
                                       i: nat)
    requires Continued(front, size, masks, o) && o + size <= whole && q <= i < size
    requires MaskedToEnd(front, size, q, q)
    ensures MaskedFrom(masks, whole, o + q, o + i)
    decreases size - q
  {
    assert MaskedFrom(front, size, q, q);
    var r := q + masks(o + q);
    if i >= r {
      assert front(q) == masks(o + q);
      forall k: nat | r <= k < size ensures MaskedFrom(front, size, r, k) {
        assert MaskedFrom(front, size, q, k);
      }
      StaysMasked(front, size, masks, o, whole, r, i);
    }
  }

  /** An occurrence at p is masked if a mask that reaches into it is followed by masks to its end. */
  lemma {:induction false} WalkMasks(masks: nat -> nat, size: nat, q: nat, p: nat, end: nat, i: nat)
    requires q <= p <= i < end <= size && masks(p) >= end - p
    requires forall r: nat :: r < p < r + masks(r) <= i ==> MaskedFrom(masks, size, r + masks(r), i)
    ensures MaskedFrom(masks, size, q, i)
    decreases size - q
  {
    if masks(q) == 0 {
      WalkMasks(masks, size, q + 1, p, end, i);
    } else if q + masks(q) <= p {
      WalkMasks(masks, size, q + masks(q), p, end, i);
    }
  }

  // ----- overlaps ---------------------------------------------------------------------------------

  lemma OccursInside(text: string, o: nat, front: string, q: nat, secret: string)
    requires Occurs(text, o, front) && q + |secret| <= |front|
    ensures Occurs(front, q, secret) <==> Occurs(text, o + q, secret)
  {
    if Occurs(front, q, secret) {
      forall j | 0 <= j < |secret| ensures text[o + q + j] == secret[j] {
        assert front[q + j] == text[o + (q + j)];
      }
    }
    if Occurs(text, o + q, secret) {
      forall j | 0 <= j < |secret| ensures front[q + j] == secret[j] {
        assert front[q + j] == text[o + (q + j)];
      }
    }
  }

  /** Where a text continues, a mask gets longer only by reaching its end. */
  lemma MaskInside(pairs: Pairs, text: string, masks: nat -> nat, o: nat, front: string, inFront: nat -> nat, q: nat)
    requires Longest(masks, pairs, text) && Longest(inFront, pairs, front)
    requires Occurs(text, o, front) && q <= |front|
    ensures inFront(q) <= masks(o + q) && (q + masks(o + q) <= |front| ==> inFront(q) == masks(o + q))
  {
    assert LongestAt(inFront(q), pairs, front, q) && LongestAt(masks(o + q), pairs, text, o + q);
    if inFront(q) > 0 {
      var a :| a in pairs && |a.secret| == inFront(q) && Occurs(front, q, a.secret);
      OccursInside(text, o, front, q, a.secret);
    }
    if masks(o + q) > 0 && q + masks(o + q) <= |front| {
      var b :| b in pairs && |b.secret| == masks(o + q) && Occurs(text, o + q, b.secret);
      OccursInside(text, o, front, q, b.secret);
    }
  }

  lemma OccurrenceIsContinued(pairs: Pairs, text: string, masks: nat -> nat, o: nat, front: string, inFront: nat -> nat)
    requires Longest(masks, pairs, text) && Longest(inFront, pairs, front) && Occurs(text, o, front)
    ensures Continued(inFront, |front|, masks, o)
  {
    forall q: nat | q <= |front|
      ensures inFront(q) <= masks(o + q) && (q + masks(o + q) <= |front| ==> inFront(q) == masks(o + q))
    {
      MaskInside(pairs, text, masks, o, front, inFront, q);
    }
  }

  lemma OverlappedInText(text: string, q: nat, p: nat, a: string, b: string)
    requires q <= p && Overlap(a, b, p - q) && Occurs(text, q, a) && Occurs(text, p, b)
    ensures Occurs(text, q, Overlapped(a, b, p - q))
  {
    var front := Overlapped(a, b, p - q);
    forall j | 0 <= j < |front| ensures text[q + j] == front[j] {
      if j < p - q {
        assert front[0 + j] == a[j] && text[q + j] == a[j];
      } else {
        assert front[p - q + (j - (p - q))] == b[j - (p - q)] && text[p + (j - (p - q))] == b[j - (p - q)];
      }
    }
  }

  /** A mask that reaches into an occurrence belongs to a secret that overlaps it. */
  lemma ReachingMask(pairs: Pairs, text: string, masks: nat -> nat, r: nat, p: nat, b: Pair) returns (a: Pair)
    requires Longest(masks, pairs, text) && b in pairs && Occurs(text, p, b.secret)
    requires r < p < r + masks(r) < p + |b.secret|
    ensures a in pairs && |a.secret| == masks(r) && Occurs(text, r, a.secret) && Overlap(a.secret, b.secret, p - r)
  {
    assert LongestAt(masks(r), pairs, text, r);
    a :| a in pairs && |a.secret| == masks(r) && Occurs(text, r, a.secret);
    BothOverlap(text, r, p, a.secret, b.secret);
  }

  lemma BothOverlap(text: string, r: nat, p: nat, a: string, b: string)
    requires Occurs(text, r, a) && Occurs(text, p, b) && r < p < r + |a| < p + |b|
    ensures Overlap(a, b, p - r)
  {
    forall j | 0 <= j < |a| - (p - r) ensures a[p - r + j] == b[j] {
      assert text[r + (p - r + j)] == a[p - r + j] && text[p + j] == b[j];
    }
  }

  /** In two overlapping secrets written out, the second is masked to its end. */
  lemma OverlapIsMasked(pairs: Pairs, a: Pair, b: Pair, d: nat, front: string) returns (masks: nat -> nat)
    requires LongestFirst(pairs) && MasksOverlaps(pairs)
    requires a in pairs && b in pairs && Overlap(a.secret, b.secret, d) && front == Overlapped(a.secret, b.secret, d)
    ensures Longest(masks, pairs, front) && MaskedToEnd(masks, |front|, 0, d)
  {
    masks := MaskLengths(pairs, front);
    MaskLengthsLongest(pairs, front);
    assert WhollyMasked(pairs, front, d, b.secret);
  }

  lemma ReachedIsMasked(pairs: Pairs, text: string, masks: nat -> nat, r: nat, p: nat, b: Pair, i: nat)
    requires LongestFirst(pairs) && MasksOverlaps(pairs) && Longest(masks, pairs, text)
    requires b in pairs && Occurs(text, p, b.secret) && r < p < r + masks(r) <= i < p + |b.secret|
    ensures MaskedFrom(masks, |text|, r + masks(r), i)
  {
    var a := ReachingMask(pairs, text, masks, r, p, b);
    var front := Overlapped(a.secret, b.secret, p - r);
    var inFront := OverlapIsMasked(pairs, a, b, p - r, front);
    OverlappedInText(text, r, p, a.secret, b.secret);
    AfterOverlap(pairs, text, masks, r, a, front, inFront, p - r, i - r);
  }

  lemma AfterOverlap(pairs: Pairs, text: string, masks: nat -> nat, r: nat, a: Pair, front: string, inFront: nat -> nat,
                     d: nat, i: nat)
    requires Longest(masks, pairs, text) && Longest(inFront, pairs, front) && Occurs(text, r, front)
    requires a in pairs && Occurs(front, 0, a.secret) && |a.secret| == masks(r) && d < masks(r) <= i < |front|
    requires MaskedToEnd(inFront, |front|, 0, d)
    ensures MaskedFrom(masks, |text|, r + masks(r), r + i)
  {
    FirstMaskIsWhole(pairs, text, masks, r, a, front, inFront);
    OccurrenceIsContinued(pairs, text, masks, r, front, inFront);
    AfterFirstMask(inFront, |front|, d);
    StaysMasked(inFront, |front|, masks, r, |text|, masks(r), i);
  }

  lemma FirstMaskIsWhole(pairs: Pairs, text: string, masks: nat -> nat, r: nat, a: Pair, front: string,
                         inFront: nat -> nat)
    requires Longest(masks, pairs, text) && Longest(inFront, pairs, front) && Occurs(text, r, front)
    requires a in pairs && Occurs(front, 0, a.secret) && |a.secret| == masks(r)
    ensures inFront(0) == masks(r)
  {
    MaskInside(pairs, text, masks, r, front, inFront, 0);
    assert LongestAt(inFront(0), pairs, front, 0);
    assert r + 0 == r;
  }

  lemma AfterFirstMask(masks: nat -> nat, size: nat, p: nat)
    requires p < masks(0) && MaskedToEnd(masks, size, 0, p)
    ensures MaskedToEnd(masks, size, masks(0), masks(0))
  {
    forall k: nat | masks(0) <= k < size ensures MaskedFrom(masks, size, masks(0), k) {
      assert MaskedFrom(masks, size, 0, k);
    }
  }

  lemma OccurrenceIsMasked(pairs: Pairs, text: string, masks: nat -> nat, p: nat, b: Pair, i: nat)
    requires LongestFirst(pairs) && MasksOverlaps(pairs) && Longest(masks, pairs, text)
    requires b in pairs && Occurs(text, p, b.secret) && p <= i < p + |b.secret|
    ensures MaskedFrom(masks, |text|, 0, i)
  {
    assert LongestAt(masks(p), pairs, text, p);
    forall r: nat | r < p < r + masks(r) <= i ensures MaskedFrom(masks, |text|, r + masks(r), i) {
      ReachedIsMasked(pairs, text, masks, r, p, b, i);
    }
    WalkMasks(masks, |text|, 0, p, p + |b.secret|, i);
  }

  lemma OccurrenceIsWhollyMasked(pairs: Pairs, text: string, p: nat, b: Pair)
    requires LongestFirst(pairs) && MasksOverlaps(pairs) && b in pairs && Occurs(text, p, b.secret)
    ensures WhollyMasked(pairs, text, p, b.secret)
  {
    MaskLengthsLongest(pairs, text);
    forall i: nat | p <= i < p + |b.secret| ensures MaskedFrom(MaskLengths(pairs, text), |text|, 0, i) {
      OccurrenceIsMasked(pairs, text, MaskLengths(pairs, text), p, b, i);
    }
  }

  /** Every byte of every occurrence in every text is masked, if and only if that holds of the finitely
      many texts that consist of two overlapping secrets. */
  lemma WholeOccurrencesMasked(pairs: Pairs)
    requires LongestFirst(pairs)
    ensures MasksOccurrences(pairs) <==> MasksOverlaps(pairs)
  {
    if MasksOverlaps(pairs) {
      forall text, p: nat, b: Pair | b in pairs && Occurs(text, p, b.secret)
        ensures WhollyMasked(pairs, text, p, b.secret)
      {
        OccurrenceIsWhollyMasked(pairs, text, p, b);
      }
    }
  }

  /** In particular when no two secrets overlap. */
  lemma NoOverlapIsEnough(pairs: Pairs)
    requires LongestFirst(pairs)
    requires forall a, b, i: nat :: a in pairs && b in pairs ==> !Overlap(a.secret, b.secret, i)
    ensures MasksOccurrences(pairs)
  {
    WholeOccurrencesMasked(pairs);
  }

  const OVERLAPPING: Pairs := [Pair("abc", "1"), Pair("bcd", "2")]

  /** Two secrets that overlap, and the byte of the second that comes through. */
  lemma ByteCanSurvive()
    ensures Replace(OVERLAPPING, "abcd") == "1d" && !MasksOccurrences(OVERLAPPING)
  {
    var text := "abcd";
    assert OVERLAPPING[0].secret == "abc" && OVERLAPPING[1].secret == "bcd";
    assert text[0..] == text && text[3..] == "d" && "d"[..1] == "d" && "d"[1..] == "";
    assert FirstMatch(OVERLAPPING, text) == Some(0) && FirstMatch(OVERLAPPING, "d") == None;
    assert Replace(OVERLAPPING, "d") == "d";
    assert MaskLength(OVERLAPPING, text, 0) == 3 && MaskLength(OVERLAPPING, text, 3) == 0;
    var masks := MaskLengths(OVERLAPPING, text);
    assert !MaskedFrom(masks, 4, 3, 3) && !MaskedFrom(masks, 4, 0, 3);
    assert OVERLAPPING[1] in OVERLAPPING && Occurs(text, 1, "bcd");
    assert !WhollyMasked(OVERLAPPING, text, 1, "bcd");
  }
}
