/**
 * ASCII models of the Go standard-library string helpers the tool relies on:
 * strings.HasPrefix, strings.Fields, strings.ToLower and the %d verb of fmt.
 */
module Text {

  /** unicode.IsSpace restricted to ASCII: tab, newline, vertical tab, form feed, carriage return, space. */
  predicate IsSpace(c: char) {
    c == ' ' || 9 <= c as int <= 13
  }

  /** strings.HasPrefix */
  predicate HasPrefix(s: string, prefix: string) {
    |prefix| <= |s| && s[..|prefix|] == prefix
  }

  /** A non-empty run of non-space characters: what strings.Fields yields. */
  predicate IsToken(w: string) {
    |w| > 0 && forall i :: 0 <= i < |w| ==> !IsSpace(w[i])
  }

  /** Length of the maximal run of non-space characters at the start of s. */
  function TokenLength(s: string): (n: nat)
    ensures n <= |s|
    ensures forall i :: 0 <= i < n ==> !IsSpace(s[i])
    ensures n < |s| ==> IsSpace(s[n])
  {
    if s == [] || IsSpace(s[0]) then 0 else 1 + TokenLength(s[1..])
  }

  /** strings.Fields: the maximal runs of non-space characters of s, in order. */
  function Fields(s: string): (fs: seq<string>)
    ensures forall i :: 0 <= i < |fs| ==> IsToken(fs[i])
    decreases |s|
  {
    if s == [] then []
    else if IsSpace(s[0]) then Fields(s[1..])
    else
      var n := TokenLength(s);
      [s[..n]] + Fields(s[n..])
  }

  /** The tokens joined by single spaces: a well-formed line of whitespace-separated fields. */
  function JoinFields(ws: seq<string>): string {
    if ws == [] then ""
    else if |ws| == 1 then ws[0]
    else ws[0] + " " + JoinFields(ws[1..])
  }

  lemma {:induction false} TokenLengthOfToken(w: string, rest: string)
    requires IsToken(w)
    requires rest == [] || IsSpace(rest[0])
    ensures TokenLength(w + rest) == |w|
    decreases |w|
  {
    if |w| > 1 {
      assert (w + rest)[1..] == w[1..] + rest;
      TokenLengthOfToken(w[1..], rest);
    } else {
      assert (w + rest)[1..] == rest;
    }
  }

  /** A token followed by a space or the end of the line is exactly the next field. */
  lemma FieldsOfToken(w: string, rest: string)
    requires IsToken(w)
    requires rest == [] || IsSpace(rest[0])
    ensures Fields(w + rest) == [w] + Fields(rest)
  {
    TokenLengthOfToken(w, rest);
    assert (w + rest)[..|w|] == w;
    assert (w + rest)[|w|..] == rest;
  }

  /** Splitting a space-joined line of tokens gives the tokens back. */
  lemma {:induction false} FieldsOfJoin(ws: seq<string>)
    requires forall i :: 0 <= i < |ws| ==> IsToken(ws[i])
    ensures Fields(JoinFields(ws)) == ws
  {
    if |ws| == 1 {
      FieldsOfToken(ws[0], "");
      assert ws[0] + "" == ws[0];
    } else if |ws| > 1 {
      var tail := JoinFields(ws[1..]);
      assert ws[0] + " " + tail == ws[0] + (" " + tail);
      FieldsOfToken(ws[0], " " + tail);
      assert (" " + tail)[1..] == tail;
      FieldsOfJoin(ws[1..]);
      assert ws == [ws[0]] + ws[1..];
    }
  }

  /** unicode.ToLower restricted to ASCII. */
  function LowerChar(c: char): char {
    if 'A' <= c <= 'Z' then (c as int + 32) as char else c
  }

  /** strings.ToLower restricted to ASCII. */
  function ToLower(s: string): string {
    seq(|s|, i requires 0 <= i < |s| => LowerChar(s[i]))
  }

  /** Exactly the eight spellings YES, Yes, yEs, ... lower-case to "yes". */
  lemma ToLowerIsYes(w: string)
    ensures ToLower(w) == "yes" <==>
      |w| == 3 && (w[0] == 'y' || w[0] == 'Y') && (w[1] == 'e' || w[1] == 'E') && (w[2] == 's' || w[2] == 'S')
  {
    if |w| == 3 && (w[0] == 'y' || w[0] == 'Y') && (w[1] == 'e' || w[1] == 'E') && (w[2] == 's' || w[2] == 'S') {
      assert ToLower(w) == "yes";
    }
    if ToLower(w) == "yes" {
      assert ToLower(w)[0] == 'y' && ToLower(w)[1] == 'e' && ToLower(w)[2] == 's';
    }
  }

  function DigitChar(d: nat): char
    requires d < 10
  {
    ('0' as int + d) as char
  }

  /** The decimal rendering of n, as fmt's %d verb prints it. */
  function NatToString(n: nat): string
    decreases n
  {
    if n < 10 then [DigitChar(n)] else NatToString(n / 10) + [DigitChar(n % 10)]
  }
}
