/** Whether the masked text itself holds a secret (internal/secrets/replacer.go:68-73): it may, if a
    secret and a placeholder have something in common. */
module CleanOutput {
  import opened Basics
  import opened Secrets

  /** The secret, laid over the placeholder with its start at i, agrees with it where both are. */
  predicate TouchesAt(secret: string, placeholder: string, i: int)
  {
    && -|secret| < i < |placeholder|
    && forall x :: 0 <= x < |placeholder| && 0 <= x - i < |secret| ==> placeholder[x] == secret[x - i]
  }

  /** One contains the other, or one begins as the other ends. */
  ghost predicate Touches(secret: string, placeholder: string)
  {
    exists i: int :: TouchesAt(secret, placeholder, i)
  }

  ghost predicate Separate(pairs: Pairs)
  {
    forall a, b :: a in pairs && b in pairs ==> a.placeholder != "" && !Touches(b.secret, a.placeholder)
  }

  predicate MasksOnly(pairs: Pairs, segs: seq<Segment>)
  {
    forall s <- segs :: s.Masked? ==> s.pair in pairs
  }

  lemma {:induction false} LongestMasksOnly(pairs: Pairs, text: string, segs: seq<Segment>)
    requires AllLongest(pairs, text, segs)
    ensures MasksOnly(pairs, segs)
  {
    if segs != [] {
      var rest := match segs[0] case Copied(_) => text[1..] case Masked(a) => text[|a.secret|..];
      LongestMasksOnly(pairs, rest, segs[1..]);
      assert segs == [segs[0]] + segs[1..];
    }
  }

  /** The secret from j on starts the text. */
  predicate Starts(text: string, secret: string, j: nat)
  {
    |secret| <= j + |text| && forall x :: 0 <= x < |secret| - j ==> text[x] == secret[j + x]
  }

  lemma StartTouches(placeholder: string, rest: string, secret: string, j: nat)
    requires j < |secret| && placeholder != "" && Starts(placeholder + rest, secret, j)
    ensures Touches(secret, placeholder)
  {
    var i: int := 0 - j;
    forall x | 0 <= x < |placeholder| && 0 <= x - i < |secret| ensures placeholder[x] == secret[x - i] {
      assert (placeholder + rest)[x] == secret[j + x];
    }
    assert TouchesAt(secret, placeholder, i);
  }

  /** What starts the output without touching a placeholder was copied, so it starts the source. */
  lemma {:induction false} CopiedStart(pairs: Pairs, segs: seq<Segment>, b: Pair, j: nat)
    requires Separate(pairs) && b in pairs && MasksOnly(pairs, segs)
    requires j <= |b.secret| && Starts(Output(segs), b.secret, j)
    ensures Starts(Source(segs), b.secret, j)
  {
    if j < |b.secret| {
      var rest := segs[1..];
      assert segs[0] in segs && forall s <- rest :: s in segs;
      match segs[0] {
        case Copied(c) =>
          LaterStart(c, Output(rest), b.secret, j);
          CopiedStart(pairs, rest, b, j + 1);
          EarlierStart(c, Source(rest), b.secret, j);
        case Masked(a) =>
          StartTouches(a.placeholder, Output(rest), b.secret, j);
      }
    }
  }

  lemma LaterStart(c: char, rest: string, secret: string, j: nat)
    requires j < |secret| && Starts([c] + rest, secret, j)
    ensures c == secret[j] && Starts(rest, secret, j + 1)
  {
    assert ([c] + rest)[0] == secret[j + 0];
    forall x | 0 <= x < |secret| - (j + 1) ensures rest[x] == secret[j + 1 + x] {
      assert ([c] + rest)[x + 1] == secret[j + (x + 1)];
    }
  }

  lemma EarlierStart(c: char, rest: string, secret: string, j: nat)
    requires j < |secret| && c == secret[j] && Starts(rest, secret, j + 1)
    ensures Starts([c] + rest, secret, j)
  {
    forall x | 0 <= x < |secret| - j ensures ([c] + rest)[x] == secret[j + x] {
      assert x > 0 ==> rest[x - 1] == secret[j + 1 + (x - 1)];
    }
  }

  lemma PlaceTouches(placeholder: string, rest: string, secret: string, p: nat)
    requires p < |placeholder| && secret != "" && Occurs(placeholder + rest, p, secret)
    ensures Touches(secret, placeholder)
  {
    forall x | 0 <= x < |placeholder| && 0 <= x - p < |secret| ensures placeholder[x] == secret[x - p] {
      assert (placeholder + rest)[p + (x - p)] == secret[x - p];
    }
    assert TouchesAt(secret, placeholder, p);
  }

  lemma OccursLater(front: string, rest: string, p: nat, secret: string)
    requires |front| <= p && Occurs(front + rest, p, secret)
    ensures Occurs(rest, p - |front|, secret)
  {
    forall j | 0 <= j < |secret| ensures rest[p - |front| + j] == secret[j] {
      assert (front + rest)[p + j] == secret[j];
    }
  }

  function Piece(s: Segment): string
  {
    match s case Copied(c) => [c] case Masked(a) => a.secret
  }

  function OutPiece(s: Segment): string
  {
    match s case Copied(c) => [c] case Masked(a) => a.placeholder
  }

  lemma SourceCons(first: Segment, segs: seq<Segment>)
    ensures Source([first] + segs) == Piece(first) + Source(segs)
    ensures Output([first] + segs) == OutPiece(first) + Output(segs)
  {
    assert ([first] + segs)[1..] == segs;
  }

  /** An occurrence in the output begins in the first piece or lies behind it. */
  lemma FirstOrLater(first: Segment, segs: seq<Segment>, p: nat, secret: string)
    requires Occurs(Output([first] + segs), p, secret)
    ensures p >= |OutPiece(first)| ==> Occurs(Output(segs), p - |OutPiece(first)|, secret)
    ensures p < |OutPiece(first)| ==> Occurs(OutPiece(first) + Output(segs), p, secret)
  {
    SourceCons(first, segs);
    if p >= |OutPiece(first)| {
      OccursLater(OutPiece(first), Output(segs), p, secret);
    }
  }

  lemma HeadOf(segs: seq<Segment>)
    requires segs != []
    ensures segs == [segs[0]] + segs[1..]
  {
  }

  lemma {:induction false} NoSecretComesOut(pairs: Pairs, text: string, segs: seq<Segment>, p: nat, b: Pair)
    requires Separate(pairs) && b in pairs && MasksAs(pairs, text, segs)
    ensures !Occurs(Output(segs), p, b.secret)
    decreases segs
  {
    if segs != [] && Occurs(Output(segs), p, b.secret) {
      HeadOf(segs);
      var first, later := segs[0], segs[1..];
      FirstOrLater(first, later, p, b.secret);
      if p >= |OutPiece(first)| {
        SourceRest(segs);
        var n := SegmentWidth(first);
        MasksRest(pairs, text, segs, n, text[n..]);
        NoSecretComesOut(pairs, text[n..], later, p - |OutPiece(first)|, b);
      } else if first.Masked? {
        PlaceTouches(first.pair.placeholder, Output(later), b.secret, p);
      } else {
        NothingStartsHere(pairs, text, segs, b);
      }
    }
  }

  lemma OccursIsStart(text: string, secret: string)
    ensures Occurs(text, 0, secret) <==> Starts(text, secret, 0)
    ensures Occurs(text, 0, secret) <==> secret <= text
  {
    if Occurs(text, 0, secret) {
      forall x | 0 <= x < |secret| ensures text[x] == secret[0 + x] {
        assert text[0 + x] == secret[x];
      }
    }
    if Starts(text, secret, 0) {
      forall x | 0 <= x < |secret| ensures text[0 + x] == secret[x] {
        assert text[x] == secret[0 + x];
      }
    }
  }

  lemma NothingStartsHere(pairs: Pairs, text: string, segs: seq<Segment>, b: Pair)
    requires Separate(pairs) && b in pairs && MasksAs(pairs, text, segs) && segs != [] && segs[0].Copied?
    ensures !Occurs(Output(segs), 0, b.secret)
  {
    if Occurs(Output(segs), 0, b.secret) {
      LongestMasksOnly(pairs, text, segs);
      OccursIsStart(Output(segs), b.secret);
      CopiedStart(pairs, segs, b, 0);
      OccursIsStart(text, b.secret);
      MasksFirst(pairs, text, segs);
    }
  }

  /** If no secret touches a placeholder, no masked text holds a secret. */
  lemma OutputIsClean(pairs: Pairs, text: string, p: nat, b: Pair)
    requires LongestFirst(pairs) && Separate(pairs) && b in pairs
    ensures !Occurs(Replace(pairs, text), p, b.secret)
  {
    ReplaceMasks(pairs, text);
    SegmentsExplain(pairs, text);
    NoSecretComesOut(pairs, text, Segments(pairs, text), p, b);
  }

  lemma {:induction false} NothingToMask(pairs: Pairs, text: string)
    requires forall p: nat, b :: b in pairs ==> !Occurs(text, p, b.secret)
    ensures Replace(pairs, text) == text
    decreases |text|
  {
    if text != "" {
      MatchOccurs(pairs, text);
      forall p: nat, b | b in pairs ensures !Occurs(text[1..], p, b.secret) {
        if Occurs(text[1..], p, b.secret) {
          EarlierOccurrence(text, 1, p, b.secret);
        }
      }
      NothingToMask(pairs, text[1..]);
      assert text[..1] + text[1..] == text;
    }
  }

  lemma MatchOccurs(pairs: Pairs, text: string)
    ensures FirstMatch(pairs, text).Some? ==> exists b :: b in pairs && Occurs(text, 0, b.secret)
  {
    var i := FirstMatch(pairs, text);
    if i.Some? {
      OccursIsStart(text, pairs[i.value].secret);
      assert pairs[i.value] in pairs && Occurs(text, 0, pairs[i.value].secret);
    }
  }

  /** Then masking a masked text again changes nothing. */
  lemma MaskingTwice(pairs: Pairs, text: string)
    requires LongestFirst(pairs) && Separate(pairs)
    ensures Replace(pairs, Replace(pairs, text)) == Replace(pairs, text)
  {
    forall p: nat, b | b in pairs ensures !Occurs(Replace(pairs, text), p, b.secret) {
      OutputIsClean(pairs, text, p, b);
    }
    NothingToMask(pairs, Replace(pairs, text));
  }

  /** A placeholder comes out as it is, with every secret that is part of it. */
  lemma PlaceholderComesOut(pairs: Pairs, a: Pair)
    requires LongestFirst(pairs) && Functional(pairs) && a in pairs
    ensures Replace(pairs, a.secret) == a.placeholder
  {
    var i := WholeMatch(pairs, a.secret, a);
    assert pairs[i] in pairs;
    ReplaceWhole(pairs, a.secret, i);
  }

  /** The secret "env" is part of every placeholder, so it comes out wherever it is masked. */
  lemma SecretCanComeOut()
    ensures var pairs: Pairs := [Pair("env", Placeholder("k"))];
            && PairsOf(map["k" := "env"], ["k"]) == pairs
            && Replace(pairs, "env") == "{ env.k }" && Occurs("{ env.k }", 2, "env")
  {
    var pairs: Pairs := [Pair("env", Placeholder("k"))];
    assert Front(["k"]) == [];
    assert PairsOf(map["k" := "env"], []) == [];
    assert pairs[0] in pairs;
    PlaceholderComesOut(pairs, pairs[0]);
  }

  // ----- exactly when a secret comes out --------------------------------------------------------

  lemma {:induction false} SourceConcat(a: seq<Segment>, b: seq<Segment>)
    ensures Source(a + b) == Source(a) + Source(b) && Output(a + b) == Output(a) + Output(b)
  {
    if a == [] {
      assert a + b == b;
    } else {
      SourceConcat(a[1..], b);
      HeadAndTail(a, b);
      SourceCons(a[0], a[1..]);
      SourceCons(a[0], a[1..] + b);
      Associative(Piece(a[0]), Source(a[1..]), Source(b));
      Associative(OutPiece(a[0]), Output(a[1..]), Output(b));
    }
  }

  lemma HeadAndTail(a: seq<Segment>, b: seq<Segment>)
    requires a != []
    ensures a == [a[0]] + a[1..] && a + b == [a[0]] + (a[1..] + b)
  {
  }

  lemma SegmentsCons(pairs: Pairs, text: string) returns (first: Segment, tail: string)
    requires text != ""
    ensures Piece(first) != "" && text == Piece(first) + tail
    ensures Segments(pairs, text) == [first] + Segments(pairs, tail)
    ensures first == match FirstMatch(pairs, text) case Some(i) => Masked(pairs[i]) case None => Copied(text[0])
  {
    match FirstMatch(pairs, text) {
      case Some(i) => first, tail := Masked(pairs[i]), text[|pairs[i].secret|..];
      case None => first, tail := Copied(text[0]), text[1..];
    }
  }

  /** What matches first still does when the text ends earlier, but behind it. */
  lemma MatchInPrefix(pairs: Pairs, text: string, front: string)
    requires front <= text
    requires FirstMatch(pairs, text).Some? ==> pairs[FirstMatch(pairs, text).value].secret <= front
    ensures FirstMatch(pairs, front) == FirstMatch(pairs, text)
  {
    forall j | 0 <= j < |pairs| && pairs[j].secret <= front ensures pairs[j].secret <= text {
    }
  }

  lemma ConsSegments(pairs: Pairs, first: Segment, tail: string)
    requires Piece(first) != ""
    requires var front := Piece(first) + tail;
             first == match FirstMatch(pairs, front) case Some(i) => Masked(pairs[i]) case None => Copied(front[0])
    ensures Segments(pairs, Piece(first) + tail) == [first] + Segments(pairs, tail)
  {
    assert (Piece(first) + tail)[|Piece(first)|..] == tail;
  }

  lemma PieceOfPrefix(piece: string, tail: string, rest: string)
    requires tail <= rest
    ensures piece <= piece + tail <= piece + rest
  {
  }

  lemma TakeCons(first: Segment, segs: seq<Segment>, m: nat)
    requires 0 < m <= |segs| + 1
    ensures ([first] + segs)[..m] == [first] + segs[..m - 1]
  {
  }

  /** The first segments are those of the text they are cut from. */
  lemma {:induction false} PrefixSegments(pairs: Pairs, text: string, m: nat)
    requires m <= |Segments(pairs, text)|
    ensures Segments(pairs, Source(Segments(pairs, text)[..m])) == Segments(pairs, text)[..m]
    ensures Source(Segments(pairs, text)[..m]) <= text
    decreases m
  {
    if m > 0 {
      var first, rest := SegmentsCons(pairs, text);
      PrefixSegments(pairs, rest, m - 1);
      TakeCons(first, Segments(pairs, rest), m);
      PrefixCons(pairs, text, first, rest, Segments(pairs, rest)[..m - 1]);
    }
  }

  lemma PrefixCons(pairs: Pairs, text: string, first: Segment, rest: string, later: seq<Segment>)
    requires Piece(first) != "" && text == Piece(first) + rest
    requires first == match FirstMatch(pairs, text) case Some(i) => Masked(pairs[i]) case None => Copied(text[0])
    requires Segments(pairs, Source(later)) == later && Source(later) <= rest
    ensures Segments(pairs, Source([first] + later)) == [first] + later && Source([first] + later) <= text
  {
    var tail := Source(later);
    SourceCons(first, later);
    PieceOfPrefix(Piece(first), tail, rest);
    MatchInPrefix(pairs, text, Piece(first) + tail);
    ConsSegments(pairs, first, tail);
  }

  /** No placeholder is empty. */
  predicate Visible(pairs: Pairs)
  {
    forall a <- pairs :: a.placeholder != ""
  }

  lemma {:induction false} OutputIsLong(pairs: Pairs, segs: seq<Segment>)
    requires Visible(pairs) && MasksOnly(pairs, segs)
    ensures |Output(segs)| >= |segs|
  {
    if segs != [] {
      assert segs[0] in segs && forall s <- segs[1..] :: s in segs;
      OutputIsLong(pairs, segs[1..]);
    }
  }

  lemma {:induction false} SegmentsMaskOnly(pairs: Pairs, text: string)
    ensures MasksOnly(pairs, Segments(pairs, text))
    decreases |text|
  {
    if text != "" {
      var first, tail := SegmentsCons(pairs, text);
      SegmentsMaskOnly(pairs, tail);
    }
  }

  /** The segment in which an occurrence in the output begins. */
  lemma {:induction false} FindSegment(segs: seq<Segment>, p: nat, secret: string) returns (k: nat, q: nat)
    requires secret != "" && Occurs(Output(segs), p, secret)
    ensures k < |segs| && Occurs(Output(segs[k..]), q, secret) && q < |OutPiece(segs[k])|
  {
    assert segs != [];
    HeadOf(segs);
    FirstOrLater(segs[0], segs[1..], p, secret);
    if p < |OutPiece(segs[0])| {
      k, q := 0, p;
      assert segs[0..] == segs;
    } else {
      k, q := FindSegment(segs[1..], p - |OutPiece(segs[0])|, secret);
      TailOfTail(segs, k);
      k := k + 1;
    }
  }

  lemma TailOfTail(segs: seq<Segment>, k: nat)
    requires 1 + k <= |segs|
    ensures segs[1..][k..] == segs[k + 1..]
  {
  }

  /** The segments from some place on are those of a rest of the text. */
  lemma {:induction false} SuffixSegments(pairs: Pairs, text: string, k: nat) returns (rest: string)
    requires k <= |Segments(pairs, text)|
    ensures Segments(pairs, rest) == Segments(pairs, text)[k..]
    decreases k
  {
    if k == 0 {
      rest := text;
    } else {
      var first, tail := SegmentsCons(pairs, text);
      DropCons(first, Segments(pairs, tail), k);
      rest := SuffixSegments(pairs, tail, k - 1);
    }
  }

  lemma DropCons(first: Segment, segs: seq<Segment>, k: nat)
    requires 0 < k <= |segs| + 1
    ensures ([first] + segs)[k..] == segs[k - 1..]
  {
  }

  lemma OccursInPrefix(front: string, rest: string, p: nat, secret: string)
    requires Occurs(front + rest, p, secret) && p + |secret| <= |front|
    ensures Occurs(front, p, secret)
  {
    forall j | 0 <= j < |secret| ensures front[p + j] == secret[j] {
      assert (front + rest)[p + j] == secret[j];
    }
  }

  /** The first segments, as many as the secret has bytes, put out enough to hold it. */
  lemma EnoughOutput(pairs: Pairs, segs: seq<Segment>, q: nat, m: nat)
    requires Visible(pairs) && MasksOnly(pairs, segs) && 0 < m <= |segs| && q < |OutPiece(segs[0])|
    ensures |Output(segs[..m])| >= q + m
  {
    var later := segs[1..m];
    assert segs[..m] == [segs[0]] + later;
    forall s | s in later ensures s in segs {
    }
    SourceCons(segs[0], later);
    OutputIsLong(pairs, later);
  }

  /** The secret is in the masked text. */
  ghost predicate ComesOut(pairs: Pairs, text: string, secret: string)
  {
    exists p: nat :: Occurs(Replace(pairs, text), p, secret)
  }

  lemma ShorterText(pairs: Pairs, text: string, secret: string) returns (short: string)
    requires Visible(pairs) && secret != "" && ComesOut(pairs, text, secret)
    ensures |Segments(pairs, short)| <= |secret| && ComesOut(pairs, short, secret)
  {
    SegmentsExplain(pairs, text);
    var p: nat :| Occurs(Replace(pairs, text), p, secret);
    var k, q := FindSegment(Segments(pairs, text), p, secret);
    var rest := SuffixSegments(pairs, text, k);
    var segs := Segments(pairs, rest);
    var m := if |segs| <= |secret| then |segs| else |secret|;
    PrefixSegments(pairs, rest, m);
    short := Source(segs[..m]);
    SegmentsMaskOnly(pairs, rest);
    FewSegments(pairs, segs, q, secret, m);
    SegmentsExplain(pairs, short);
    assert Occurs(Replace(pairs, short), q, secret);
  }

  lemma FewSegments(pairs: Pairs, segs: seq<Segment>, q: nat, secret: string, m: nat)
    requires Visible(pairs) && MasksOnly(pairs, segs) && segs != [] && q < |OutPiece(segs[0])|
    requires secret != "" && Occurs(Output(segs), q, secret)
    requires m == if |segs| <= |secret| then |segs| else |secret|
    ensures Occurs(Output(segs[..m]), q, secret)
  {
    CutSegments(segs, m);
    if m < |segs| {
      EnoughOutput(pairs, segs, q, m);
      OccursInPrefix(Output(segs[..m]), Output(segs[m..]), q, secret);
    }
  }

  lemma CutSegments(segs: seq<Segment>, m: nat)
    requires m <= |segs|
    ensures Output(segs) == Output(segs[..m]) + Output(segs[m..])
    ensures m == |segs| ==> segs[..m] == segs
  {
    assert segs[..m] + segs[m..] == segs;
    SourceConcat(segs[..m], segs[m..]);
  }

  /** Some masked text holds the secret if and only if one does of a text that is cut into at most as many
      pieces, copied characters and masked secrets, as the secret has characters. */
  lemma ShortTextsSuffice(pairs: Pairs, secret: string)
    requires Visible(pairs) && secret != ""
    ensures (exists text :: ComesOut(pairs, text, secret)) <==>
            (exists text :: |Segments(pairs, text)| <= |secret| && ComesOut(pairs, text, secret))
  {
    if text :| ComesOut(pairs, text, secret) {
      var short := ShorterText(pairs, text, secret);
    }
  }
}
