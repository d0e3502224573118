/** Texts cut at newlines. */
module LineText {
  import opened Common

  /** The place of the first newline, or the length. */
  function Newline(s: string): (i: nat)
    ensures i <= |s| && (i < |s| ==> s[i] == '\n')
    ensures forall j :: 0 <= j < i ==> s[j] != '\n'
    decreases |s|
  {
    if s == "" || s[0] == '\n' then 0 else 1 + Newline(s[1..])
  }

  /** The first line and what follows its newline, if there is one. */
  function Cut(s: string): (r: Option<(string, string)>)
    ensures r.Some? ==> |r.value.1| < |s|
  {
    var i := Newline(s);
    if i == |s| then None else Some((s[..i], s[i + 1..]))
  }

  /** The complete lines of a text, without their newlines. */
  function Lines(s: string): seq<string>
    decreases |s|
  {
    match Cut(s)
    case None => []
    case Some((line, more)) => [line] + Lines(more)
  }

  /** The text after the last newline. */
  function Rest(s: string): (r: string)
    ensures |r| <= |s|
    decreases |s|
  {
    match Cut(s)
    case None => s
    case Some((line, more)) => Rest(more)
  }

  lemma NewlineIsAt(line: string, more: string)
    requires '\n' !in line
    ensures Newline(line + "\n" + more) == |line|
  {
    var s := line + "\n" + more;
    assert s[|line|] == '\n';
    assert forall j :: 0 <= j < |line| ==> s[j] == line[j];
  }

  lemma FirstLine(line: string, more: string)
    requires '\n' !in line
    ensures Lines(line + "\n" + more) == [line] + Lines(more) && Rest(line + "\n" + more) == Rest(more)
  {
    var s := line + "\n" + more;
    NewlineIsAt(line, more);
    assert s[..|line|] == line && s[|line| + 1..] == more;
  }

  lemma CutAtNewline(s: string, i: nat)
    requires i == Newline(s) < |s|
    ensures Lines(s) == [s[..i]] + Lines(s[i + 1..]) && Rest(s) == Rest(s[i + 1..])
  {
    assert Cut(s) == Some((s[..i], s[i + 1..]));
  }

  /** Reading on: only the rest of the old text matters. */
  lemma {:induction false} LinesAppend(a: string, b: string)
    ensures Lines(a + b) == Lines(a) + Lines(Rest(a) + b)
    ensures Rest(a + b) == Rest(Rest(a) + b)
    decreases |a|
  {
    var i := Newline(a);
    if i < |a| {
      CutAtNewline(a, i);
      FirstLineAppend(a, i, b);
      LinesAppend(a[i + 1..], b);
    }
  }

  lemma FirstLineAppend(a: string, i: nat, b: string)
    requires i == Newline(a) < |a|
    ensures Lines(a + b) == [a[..i]] + Lines(a[i + 1..] + b) && Rest(a + b) == Rest(a[i + 1..] + b)
  {
    assert a + b == a[..i] + "\n" + (a[i + 1..] + b);
    FirstLine(a[..i], a[i + 1..] + b);
  }

  lemma {:induction false} RestHasNoNewline(s: string)
    ensures '\n' !in Rest(s) && (|Rest(s)| < |s| ==> |Lines(s)| > 0)
    decreases |s|
  {
    var i := Newline(s);
    if i < |s| {
      RestHasNoNewline(s[i + 1..]);
    }
  }

  lemma NoLine(s: string)
    requires '\n' !in s
    ensures Lines(s) == [] && Rest(s) == s
  {
    assert Newline(s) == |s|;
  }
}
