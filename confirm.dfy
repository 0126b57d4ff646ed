/**
 * internal/confirm.go: the confirmation gate. The answer is read with fmt.Fscanln into one
 * string, so the gate sees one whitespace-free word that must be alone on its line; any scan
 * error declines (fail closed), and so does every word other than "yes" in any letter case.
 */
module Confirm {
  import opened Text

  /** The reader the answer comes from: its remaining contents, or a reader whose reads fail. */
  datatype Device = Readable(contents: string) | Unreadable

  /** The errors fmt.Fscanln reports when scanning one string operand (EOF is io.EOF, an exhausted reader). */
  datatype ScanError = EOF | UnexpectedNewline | ExpectedNewline | ReadFailed

  datatype Scan = Scanned(word: string) | ScanFailed(err: ScanError)

  /** A space that fmt's scanner skips within a line: every ASCII space except the newline. */
  predicate IsBlank(c: char) {
    IsSpace(c) && c != '\n'
  }

  /** The number of blanks at the start of s. */
  function LeadingBlanks(s: string): (k: nat)
    ensures k <= |s|
    ensures forall i :: 0 <= i < k ==> IsBlank(s[i])
    ensures k < |s| ==> !IsBlank(s[k])
  {
    if s == [] || !IsBlank(s[0]) then 0 else 1 + LeadingBlanks(s[1..])
  }

  /**
   * The scan of one line (newline excluded): skip blanks; a line with nothing else is an error
   * (an unexpected newline, or an unexpected end when no newline follows); the word runs up to
   * the next space; after it only blanks may remain.
   */
  function ScanLine(l: string, atEnd: ScanError): (r: Scan)
    ensures r.Scanned? ==> IsToken(r.word)
  {
    var k := LeadingBlanks(l);
    if k == |l| then ScanFailed(atEnd)
    else
      var m := k + TokenLength(l[k..]);
      if m + LeadingBlanks(l[m..]) == |l| then Scanned(l[k..m]) else ScanFailed(ExpectedNewline)
  }

  /**
   * fmt.Fscanln(r, &response) with one string operand. It never reads past the first newline,
   * so only the first line matters.
   */
  function Fscanln(d: Device): (r: Scan)
    ensures r.Scanned? ==> d.Readable? && IsToken(r.word)
  {
    match d
    case Unreadable => ScanFailed(ReadFailed)
    case Readable(s) =>
      var n := LineLength(s);
      ScanLine(s[..n], if n < |s| then UnexpectedNewline else EOF)
  }

  /** UserConfirmedDeletion: true only for a scanned word that lower-cases to "yes". */
  function UserConfirmedDeletion(d: Device): (ok: bool)
    ensures ok ==> Fscanln(d).Scanned? && |Fscanln(d).word| == 3
    ensures Fscanln(d).ScanFailed? ==> !ok
  {
    match Fscanln(d)
    case Scanned(w) => ToLower(w) == "yes"
    case ScanFailed(_) => false
  }

  // An independent reading of the same gate: the first line, trimmed, must be "yes" in any case.

  /** The length of the input up to (not including) its first newline. */
  function LineLength(s: string): (n: nat)
    ensures n <= |s|
    ensures forall i :: 0 <= i < n ==> s[i] != '\n'
    ensures n < |s| ==> s[n] == '\n'
  {
    if s == [] || s[0] == '\n' then 0 else 1 + LineLength(s[1..])
  }

  /** The length of s once its trailing blanks are dropped. */
  function TrimmedEnd(s: string): (n: nat)
    ensures n <= |s|
    ensures forall i :: n <= i < |s| ==> IsBlank(s[i])
    ensures n > 0 ==> !IsBlank(s[n - 1])
  {
    if s != [] && IsBlank(s[|s| - 1]) then TrimmedEnd(s[..|s| - 1]) else |s|
  }

  function FirstLine(s: string): string {
    s[..LineLength(s)]
  }

  /** The line without its leading and trailing blanks. */
  function Trim(l: string): string {
    var a := l[LeadingBlanks(l)..];
    a[..TrimmedEnd(a)]
  }

  /** TrimmedEnd is the position just after the last non-blank. */
  lemma TrimmedEndAt(a: string, n: nat)
    requires 0 < n <= |a| && !IsBlank(a[n - 1])
    requires forall i :: n <= i < |a| ==> IsBlank(a[i])
    ensures TrimmedEnd(a) == n
  {
  }

  /** TokenLength is determined by where the first space is. */
  lemma {:induction false} TokenLengthAt(a: string, t: nat)
    requires t <= |a|
    requires forall i :: 0 <= i < t ==> !IsSpace(a[i])
    requires t < |a| ==> IsSpace(a[t])
    ensures TokenLength(a) == t
  {
    if t > 0 {
      TokenLengthAt(a[1..], t - 1);
    }
  }

  /** A run of blanks is skipped entirely. */
  lemma {:induction false} LeadingBlanksOfBlanks(s: string)
    requires forall i :: 0 <= i < |s| ==> IsBlank(s[i])
    ensures LeadingBlanks(s) == |s|
  {
    if s != [] {
      LeadingBlanksOfBlanks(s[1..]);
    }
  }

  /** On a single line, a successful scan yields the line without its surrounding blanks. */
  lemma {:induction false} ScannedIsTrim(l: string, atEnd: ScanError)
    requires forall i :: 0 <= i < |l| ==> l[i] != '\n'
    requires ScanLine(l, atEnd).Scanned?
    ensures ScanLine(l, atEnd).word == Trim(l)
  {
    var k := LeadingBlanks(l);
    var a := l[k..];
    var n := TokenLength(a);
    assert a != [] && !IsSpace(a[0]) by {
      assert a[0] == l[k];
    }
    assert n + LeadingBlanks(a[n..]) == |a| by {
      assert l[k + n..] == a[n..];
    }
    WordThenBlanks(a, n);
    assert Trim(l) == a[..n];
    assert ScanLine(l, atEnd) == Scanned(l[k..k + n]);
    assert l[k..k + n] == a[..n];
  }

  /** A word followed only by blanks is what trimming the end leaves. */
  lemma {:induction false} WordThenBlanks(a: string, n: nat)
    requires a != [] && !IsSpace(a[0])
    requires n == TokenLength(a) && n + LeadingBlanks(a[n..]) == |a|
    ensures TrimmedEnd(a) == n
  {
    forall i | n <= i < |a| ensures IsBlank(a[i]) {
      assert a[i] == a[n..][i - n];
    }
    TrimmedEndAt(a, n);
  }

  /** On a single line, a trimmed line that is one word scans successfully. */
  lemma WordLineScans(l: string, atEnd: ScanError)
    requires forall i :: 0 <= i < |l| ==> l[i] != '\n'
    requires Trim(l) != [] && forall i :: 0 <= i < |Trim(l)| ==> !IsBlank(Trim(l)[i])
    ensures ScanLine(l, atEnd).Scanned?
  {
    var k := LeadingBlanks(l);
    var t := TrimmedEnd(l[k..]);
    TrimmedWordStart(l);
    TrimmedWordLength(l);
    BlanksAfterTrim(l[k..]);
    SliceOfSlice(l, k, t);
    ScanLineOfParts(l, atEnd, k, t);
  }

  /** The scan of a line, from where its word starts and how long the word is. */
  lemma {:induction false} ScanLineOfParts(l: string, atEnd: ScanError, k: nat, t: nat)
    requires k == LeadingBlanks(l) && k < |l|
    requires TokenLength(l[k..]) == t
    requires LeadingBlanks(l[k + t..]) == |l| - k - t
    ensures ScanLine(l, atEnd) == Scanned(l[k..k + t])
  {
  }

  lemma TrimmedWordStart(l: string)
    requires Trim(l) != []
    ensures LeadingBlanks(l) < |l|
  {
  }

  /** In a line whose trimmed form is one word, the word runs to the trimmed end. */
  lemma TrimmedWordLength(l: string)
    requires forall i :: 0 <= i < |l| ==> l[i] != '\n'
    requires forall i :: 0 <= i < |Trim(l)| ==> !IsBlank(Trim(l)[i])
    ensures TokenLength(l[LeadingBlanks(l)..]) == TrimmedEnd(l[LeadingBlanks(l)..])
  {
    var a := l[LeadingBlanks(l)..];
    var t := TrimmedEnd(a);
    forall i | 0 <= i < t ensures !IsSpace(a[i]) {
      assert a[i] == Trim(l)[i];
      assert a[i] == l[LeadingBlanks(l) + i];
    }
    assert t < |a| ==> IsBlank(a[t]);
    TokenLengthAt(a, t);
  }

  lemma SliceOfSlice(l: string, k: nat, t: nat)
    requires k + t <= |l|
    ensures l[k..][t..] == l[k + t..]
  {
  }

  /** What trimming the end drops is skipped as blanks. */
  lemma {:induction false} BlanksAfterTrim(a: string)
    ensures LeadingBlanks(a[TrimmedEnd(a)..]) == |a| - TrimmedEnd(a)
  {
    var t := TrimmedEnd(a);
    forall i | 0 <= i < |a| - t ensures IsBlank(a[t..][i]) {
      assert a[t..][i] == a[t + i];
    }
    LeadingBlanksOfBlanks(a[t..]);
  }

  /** No spelling of "yes" is empty or holds a blank. */
  lemma YesHasNoBlank(r: string)
    ensures ToLower(r) == "yes" ==> r != [] && forall i :: 0 <= i < |r| ==> !IsBlank(r[i])
  {
    if ToLower(r) == "yes" {
      forall i | 0 <= i < |r| ensures !IsBlank(r[i]) {
        assert ToLower(r)[i] == LowerChar(r[i]);
      }
    }
  }

  /**
   * The gate accepts exactly the inputs whose first line, trimmed of blanks, is "yes" in some
   * letter case.
   */
  lemma ConfirmedIffTrimmedYes(s: string)
    ensures UserConfirmedDeletion(Readable(s)) <==> ToLower(Trim(FirstLine(s))) == "yes"
  {
    var n := LineLength(s);
    var l := FirstLine(s);
    assert forall i :: 0 <= i < |l| ==> l[i] == s[i];
    var atEnd := if n < |s| then UnexpectedNewline else EOF;
    assert Fscanln(Readable(s)) == ScanLine(l, atEnd);
    var r := Trim(l);
    YesHasNoBlank(r);
    if ToLower(r) == "yes" {
      WordLineScans(l, atEnd);
    }
    if ScanLine(l, atEnd).Scanned? {
      ScannedIsTrim(l, atEnd);
    }
  }

  lemma {:induction false} LineLengthAt(s: string, n: nat)
    requires n <= |s|
    requires forall i :: 0 <= i < n ==> s[i] != '\n'
    requires n < |s| ==> s[n] == '\n'
    ensures LineLength(s) == n
  {
    if n > 0 {
      LineLengthAt(s[1..], n - 1);
    }
  }

  /** A word alone on its line (or at the end of input) is scanned as that word. */
  lemma WordAloneScans(w: string, rest: string)
    requires IsToken(w)
    requires rest == [] || rest[0] == '\n'
    ensures Fscanln(Readable(w + rest)) == Scanned(w)
  {
    var s := w + rest;
    LineLengthAt(s, |w|);
    assert s[..|w|] == w;
    TokenLengthAt(w, |w|);
    assert w[|w|..] == [];
    assert w[0..|w|] == w;
  }

  /** A second word on the line is a scan error. */
  lemma TwoWordsFail(w1: string, w2: string, rest: string)
    requires IsToken(w1) && IsToken(w2)
    requires rest == [] || rest[0] == '\n'
    ensures Fscanln(Readable(w1 + " " + w2 + rest)) == ScanFailed(ExpectedNewline)
  {
    var s := w1 + " " + w2 + rest;
    var n := |w1| + 1 + |w2|;
    LineLengthAt(s, n);
    var l := s[..n];
    assert l == w1 + " " + w2;
    assert LeadingBlanks(l) == 0;
    TokenLengthAt(l, |w1|);
    assert l[0..] == l;
    assert l[|w1|..] == " " + w2;
    assert LeadingBlanks(" " + w2) == 1 by {
      assert (" " + w2)[1..] == w2;
    }
    ScanLineExtraWord(l, if n < |s| then UnexpectedNewline else EOF, 0, |w1|);
  }

  /** A line whose word is followed by more than blanks fails to scan. */
  lemma ScanLineExtraWord(l: string, atEnd: ScanError, k: nat, t: nat)
    requires k == LeadingBlanks(l) && k < |l|
    requires TokenLength(l[k..]) == t
    requires k + t + LeadingBlanks(l[k + t..]) < |l|
    ensures ScanLine(l, atEnd) == ScanFailed(ExpectedNewline)
  {
  }

  /** "yes" in any letter case, alone on its line, confirms. */
  lemma YesAloneConfirms(w: string, rest: string)
    requires IsToken(w) && ToLower(w) == "yes"
    requires rest == [] || rest[0] == '\n'
    ensures UserConfirmedDeletion(Readable(w + rest))
  {
    WordAloneScans(w, rest);
  }

  /** The answer "YES" of the acceptance tests confirms. */
  lemma AcceptedUpperCase()
    ensures UserConfirmedDeletion(Readable("YES\n"))
  {
    assert "YES" + "\n" == "YES\n";
    ToLowerIsYes("YES");
    YesAloneConfirms("YES", "\n");
  }

  /** The answer "yes" of the acceptance tests confirms. */
  lemma AcceptedLowerCase()
    ensures UserConfirmedDeletion(Readable("yes\n"))
  {
    assert "yes" + "\n" == "yes\n";
    ToLowerIsYes("yes");
    YesAloneConfirms("yes", "\n");
  }

  /** A word other than "yes" declines, whatever else the line holds. */
  lemma OtherWordDeclines(w: string, rest: string)
    requires IsToken(w) && ToLower(w) != "yes"
    requires rest == [] || rest[0] == '\n'
    ensures !UserConfirmedDeletion(Readable(w + rest))
  {
    WordAloneScans(w, rest);
  }

  /** A refusal and the abbreviations of "yes" decline. */
  lemma DeclinedWords()
    ensures !UserConfirmedDeletion(Readable("no\n"))
    ensures !UserConfirmedDeletion(Readable("y\n"))
    ensures !UserConfirmedDeletion(Readable("ye\n"))
  {
    assert ToLower("no") != "yes" by { ToLowerIsYes("no"); }
    assert ToLower("y") != "yes" by { ToLowerIsYes("y"); }
    assert ToLower("ye") != "yes" by { ToLowerIsYes("ye"); }
    assert "no" + "\n" == "no\n";
    assert "y" + "\n" == "y\n";
    assert "ye" + "\n" == "ye\n";
    OtherWordDeclines("no", "\n");
    OtherWordDeclines("y", "\n");
    OtherWordDeclines("ye", "\n");
  }

  /** An empty answer and a failing reader are scan errors, so they decline. */
  lemma DeclinedEmpty()
    ensures Fscanln(Readable("")) == ScanFailed(EOF)
    ensures Fscanln(Readable("\n")) == ScanFailed(UnexpectedNewline)
    ensures Fscanln(Unreadable) == ScanFailed(ReadFailed)
  {
    LineLengthAt("\n", 0);
  }

  /** Even "yes please" declines: the second word makes the scan fail. */
  lemma DeclinedSentence()
    ensures Fscanln(Readable("yes please\n")) == ScanFailed(ExpectedNewline)
  {
    assert "yes" + " " + "please" + "\n" == "yes please\n";
    TwoWordsFail("yes", "please", "\n");
  }
}
