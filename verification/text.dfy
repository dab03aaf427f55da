/** The parts of Go's bytes and strings packages that the line arithmetic rests on. */
module Text {
  import opened Basics

  /** The first newline. */
  function Index(s: string): (i: Option<nat>)
    ensures i.Some? ==> i.value < |s| && s[i.value] == '\n' && forall j :: 0 <= j < i.value ==> s[j] != '\n'
    ensures i.None? ==> '\n' !in s
  {
    if s == "" then None
    else if s[0] == '\n' then Some(0)
    else
      assert forall j :: 1 <= j < |s| ==> s[j] == s[1..][j - 1];
      match Index(s[1..])
      case None => None
      case Some(i) => Some(i + 1)
  }

  lemma OneIndex(s: string, i: nat)
    requires i < |s| && s[i] == '\n' && forall j :: 0 <= j < i ==> s[j] != '\n'
    ensures Index(s) == Some(i)
  {
  }

  /** The last newline. */
  function LastIndex(s: string): (i: Option<nat>)
    ensures i.Some? ==> i.value < |s| && s[i.value] == '\n' && forall j :: i.value < j < |s| ==> s[j] != '\n'
    ensures i.None? ==> '\n' !in s
  {
    if s == "" then None
    else if Last(s) == '\n' then Some(|s| - 1)
    else
      assert s == Front(s) + [Last(s)];
      match LastIndex(Front(s))
      case None => None
      case Some(i) => Some(i)
  }

  lemma OneLastIndex(s: string, i: nat)
    requires i < |s| && s[i] == '\n' && forall j :: i < j < |s| ==> s[j] != '\n'
    ensures LastIndex(s) == Some(i)
  {
  }

  /** How many newlines. */
  function Count(s: string): nat
  {
    if s == "" then 0 else (if s[0] == '\n' then 1 else 0) + Count(s[1..])
  }

  /** The text before each newline, up to n - 1 of them, and the rest. */
  function SplitN(s: string, n: nat): (parts: seq<string>)
    requires n > 0
    ensures 0 < |parts| <= n
    decreases n
  {
    if n == 1 then [s] else
    match Index(s)
    case None => [s]
    case Some(i) => [s[..i]] + SplitN(s[i + 1..], n - 1)
  }

  /** All lines; one more than there are newlines. */
  function Split(s: string): (parts: seq<string>)
    ensures |parts| > 0
    decreases |s|
  {
    match Index(s)
    case None => [s]
    case Some(i) => [s[..i]] + Split(s[i + 1..])
  }

  function Join(parts: seq<string>): string
  {
    if parts == [] then ""
    else if |parts| == 1 then parts[0]
    else parts[0] + "\n" + Join(parts[1..])
  }

  predicate Lines(parts: seq<string>)
  {
    forall line <- parts :: '\n' !in line
  }

  lemma {:induction false} CountConcat(a: string, b: string)
    ensures Count(a + b) == Count(a) + Count(b)
  {
    if a == "" {
      assert a + b == b;
    } else {
      CountConcat(a[1..], b);
      assert (a + b)[1..] == a[1..] + b;
    }
  }

  lemma {:induction false} CountZero(s: string)
    ensures Count(s) == 0 <==> '\n' !in s
  {
    if s != "" {
      CountZero(s[1..]);
      assert s == [s[0]] + s[1..];
    }
  }

  /** Removing the first line removes one newline. */
  lemma CountAfterIndex(s: string, i: nat)
    requires Index(s) == Some(i)
    ensures Count(s) == 1 + Count(s[i + 1..])
  {
    CountZero(s[..i]);
    assert s == s[..i] + (s[i..i + 1] + s[i + 1..]);
    CountConcat(s[..i], s[i..i + 1] + s[i + 1..]);
    CountConcat(s[i..i + 1], s[i + 1..]);
    assert Count(s[i..i + 1]) == 1 by {
      assert s[i..i + 1] == "\n";
      assert "\n"[1..] == "";
    }
  }

  lemma {:induction false} SplitIsLines(s: string)
    ensures Lines(Split(s)) && |Split(s)| == Count(s) + 1
    ensures Join(Split(s)) == s
    decreases |s|
  {
    match Index(s) {
      case None =>
        CountZero(s);
      case Some(i) =>
        CutAt(s, i);
        SplitIsLines(s[i + 1..]);
        CountAfterIndex(s, i);
        LineBefore(s[..i], Split(s[i + 1..]));
    }
  }

  lemma CutAt(s: string, i: nat)
    requires Index(s) == Some(i)
    ensures '\n' !in s[..i] && s == s[..i] + "\n" + s[i + 1..]
  {
  }

  lemma LineBefore(line: string, parts: seq<string>)
    requires parts != [] && Lines(parts) && '\n' !in line
    ensures Lines([line] + parts) && Join([line] + parts) == line + "\n" + Join(parts)
  {
    assert ([line] + parts)[1..] == parts;
  }

  /** Where the first newline of a line followed by more text is. */
  lemma IndexAfterLine(line: string, rest: string)
    requires '\n' !in line
    ensures Index(line) == None
    ensures Index(line + "\n" + rest) == Some(|line|)
    ensures (line + "\n" + rest)[|line| + 1..] == rest
  {
    var s := line + "\n" + rest;
    assert forall j :: 0 <= j < |line| ==> s[j] == line[j];
    assert s[|line|] == '\n';
  }

  /** Splitting what was joined gives the lines back. */
  lemma {:induction false} SplitOfJoin(parts: seq<string>)
    requires parts != [] && Lines(parts)
    ensures Split(Join(parts)) == parts
  {
    if |parts| == 1 {
      assert parts[0] in parts;
      IndexAfterLine(parts[0], "");
      assert Join(parts) == parts[0] && parts == [parts[0]];
    } else {
      assert parts[0] in parts;
      SplitOfJoin(parts[1..]);
      SplitOfLine(Join(parts), parts[0], Join(parts[1..]));
      assert parts == [parts[0]] + parts[1..];
    }
  }

  lemma SplitOfLine(data: string, line: string, rest: string)
    requires data == line + "\n" + rest && '\n' !in line
    ensures Split(data) == [line] + Split(rest)
  {
    IndexAfterLine(line, rest);
    assert data[..|line|] == line;
  }

  /** Splitting some joined lines of a text gives these lines. */
  lemma SplitOfSomeLines(lines: seq<string>, from: nat, to: nat)
    requires from < to <= |lines| && Lines(lines)
    ensures Split(Join(lines[from..to])) == lines[from..to]
  {
    forall line | line in lines[from..to] ensures '\n' !in line {
      assert line in lines;
    }
    SplitOfJoin(lines[from..to]);
  }

  lemma {:induction false} JoinConcat(a: seq<string>, b: seq<string>)
    requires a != [] && b != []
    ensures Join(a + b) == Join(a) + "\n" + Join(b)
  {
    if |a| == 1 {
      assert (a + b)[1..] == b;
    } else {
      JoinConcat(a[1..], b);
      assert (a + b)[1..] == a[1..] + b;
    }
  }
}
