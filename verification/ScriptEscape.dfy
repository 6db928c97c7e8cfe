/**
 escapeScriptSpecial: JSON placed inside a script element must not contain "</"
 or "<!". The rewriting works on raw bytes, so what has to be shown is that every
 rewritten byte sits inside a string literal and denotes the same character.
 */
module ScriptEscape {
  import opened Text

  // ---------------------------------------------------------------- rewriting

  predicate SpecialAt(s: string, i: nat) {
    i + 1 < |s| && s[i] == '<' && (s[i + 1] == '/' || s[i + 1] == '!')
  }

  predicate Special(s: string) {
    exists i :: 0 <= i < |s| && SpecialAt(s, i)
  }

  const ESCAPE: string := ['\\', 'u', '0', '0', '3', 'c']

  /** Every special "<" becomes the six bytes of its escape. */
  function Escaped(s: string): string {
    if |s| == 0 then ""
    else (if SpecialAt(s, 0) then ESCAPE else [s[0]]) + Escaped(s[1..])
  }

  /** indexScriptSpecial. */
  method IndexScriptSpecial(p: string) returns (i: int)
    ensures i < 0 <==> !Special(p)
    ensures i >= 0 ==> i < |p| && SpecialAt(p, i) && forall n :: 0 <= n < i ==> !SpecialAt(p, n)
  {
    for k := 0 to |p|
      invariant forall n :: 0 <= n < k ==> !SpecialAt(p, n)
    {
      if SpecialAt(p, k) {
        return k;
      }
    }
    return -1;
  }

  /** escapeScriptSpecial: the loop cuts the input at every special byte and restarts on the rest. */
  method EscapeScriptSpecial(input: string) returns (out: string)
    ensures out == Escaped(input)
  {
    var first := IndexScriptSpecial(input);
    if first < 0 {
      CleanIsKept(input);
      return input;
    }
    var raw := input;
    out := "";
    var i := 0;
    while i < |raw|
      invariant 0 <= i <= |raw|
      invariant forall k :: 0 <= k < i ==> !SpecialAt(raw, k)
      invariant Escaped(input) == out + Escaped(raw)
      decreases |raw| - i
    {
      if SpecialAt(raw, i) {
        CutAt(raw, i);
        out := out + raw[..i] + ESCAPE;
        raw := raw[i + 1..];
        i := 0;
      } else {
        i := i + 1;
      }
    }
    CleanIsKept(raw);
    out := out + raw;
  }

  // ------------------------------------------------ the writer that escapes nothing

  /** What writeEscapedScriptJSON puts for a special byte: the byte itself. */
  const PLAIN_ESCAPE: string := ['<']

  lemma CopyStep(p: string, out: string, tail: string, start: nat, j: nat)
    requires start <= j < |tail| && tail[j] == '<' && out + tail[start..] == p
    ensures out + tail[start..j] + PLAIN_ESCAPE + tail[j + 1..] == p
  {
    assert tail[start..] == tail[start..j] + PLAIN_ESCAPE + tail[j + 1..];
  }

  /** One turn of the loop at a special byte. */
  method CopyAt(ghost p: string, out: string, tail: string, start: nat, j: nat) returns (out': string)
    requires start <= j && SpecialAt(tail, j) && out + tail[start..] == p
    ensures out' + tail[j + 1..] == p
  {
    CopyStep(p, out, tail, start, j);
    out' := out;
    if j > start {
      out' := out' + tail[start..j];
    } else {
      assert out + tail[start..j] == out;
    }
    out' := out' + PLAIN_ESCAPE;
  }

  /** writeEscapedScriptJSON: whatever the input, the loop writes exactly the input. */
  method WriteEscapedScriptJSON(p: string) returns (out: string)
    ensures out == p
    ensures Special(out) <==> Special(p)
  {
    var i := IndexScriptSpecial(p);
    if i < 0 {
      return p;
    }
    out := p[..i];
    var tail := p[i..];
    var start := 0;
    for j := 0 to |tail|
      invariant 0 <= start <= j && out + tail[start..] == p
    {
      if SpecialAt(tail, j) {
        out := CopyAt(p, out, tail, start, j);
        start := j + 1;
      }
    }
    if start < |tail| {
      out := out + tail[start..];
    }
  }

  /** An input that ends the script element, and so an output that does. */
  lemma ScriptEndIsSpecial()
    ensures Special("</script>")
  {
    assert SpecialAt("</script>", 0);
  }

  // -------------------------------------------------------- the one that does escape

  lemma {:induction false} CleanIsKept(s: string)
    requires !Special(s)
    ensures Escaped(s) == s
  {
    if |s| > 0 {
      assert !SpecialAt(s, 0);
      assert forall i :: 0 <= i < |s[1..]| && SpecialAt(s[1..], i) ==> SpecialAt(s, i + 1);
      CleanIsKept(s[1..]);
      assert s == [s[0]] + s[1..];
    }
  }

  lemma {:induction false} CutAt(s: string, i: nat)
    requires SpecialAt(s, i) && forall k :: 0 <= k < i ==> !SpecialAt(s, k)
    ensures Escaped(s) == s[..i] + ESCAPE + Escaped(s[i + 1..])
  {
    if i > 0 {
      forall k | 0 <= k < i - 1
        ensures !SpecialAt(s[1..], k)
      {
        assert SpecialAt(s[1..], k) <==> SpecialAt(s, k + 1);
      }
      assert SpecialAt(s[1..], i - 1) && !SpecialAt(s, 0);
      CutAt(s[1..], i - 1);
      var tail := Escaped(s[i + 1..]);
      assert s[1..][i..] == s[i + 1..];
      assert s[..i] == [s[0]] + s[1..][..i - 1];
      assert [s[0]] + (s[1..][..i - 1] + ESCAPE + tail) == ([s[0]] + s[1..][..i - 1]) + ESCAPE + tail;
    } else {
      assert s[..0] == "";
    }
  }

  /** The result cannot end the script element or open a comment. */
  lemma {:induction false} NothingSpecialLeft(s: string)
    ensures !Special(Escaped(s))
    ensures |s| > 0 ==> |Escaped(s)| > 0 && (Escaped(s)[0] == s[0] || Escaped(s)[0] == '\\')
  {
    if |s| > 0 {
      NothingSpecialLeft(s[1..]);
      var rest := Escaped(s[1..]);
      if SpecialAt(s, 0) {
        FrontNotSpecial(ESCAPE, rest);
      } else {
        assert s[0] == '<' && |rest| > 0 ==> rest[0] != '/' && rest[0] != '!';
        FrontNotSpecial([s[0]], rest);
      }
    }
  }

  /** A front that neither holds a special byte nor makes one with what follows. */
  lemma FrontNotSpecial(front: string, rest: string)
    requires |front| > 0 && !Special(front) && !Special(rest)
    requires |rest| > 0 && front[|front| - 1] == '<' ==> rest[0] != '/' && rest[0] != '!'
    ensures !Special(front + rest)
  {
    var out, n := front + rest, |front|;
    forall i | 0 <= i < |out|
      ensures !SpecialAt(out, i)
    {
      assert i < n ==> out[i] == front[i];
      assert i >= n ==> (SpecialAt(out, i) <==> SpecialAt(rest, i - n));
      assert i + 1 < n ==> (SpecialAt(out, i) <==> SpecialAt(front, i));
      assert i + 1 == n < |out| ==> out[n] == rest[0];
    }
  }

  lemma EscapingTwice(s: string)
    ensures Escaped(Escaped(s)) == Escaped(s)
  {
    NothingSpecialLeft(s);
    CleanIsKept(Escaped(s));
  }

  // --------------------------------------------------------------- JSON tokens

  /** One decoded unit of a string: a byte as it stands, or a \u escape above ASCII. */
  datatype Unit = Byte(c: char) | Code(n: nat)

  function UnitOf(code: nat): Unit {
    if code < 0x80 then Byte(code as char) else Code(code)
  }

  /** RFC 8259 tokens; a string carries its decoded contents, any other run of characters itself. */
  datatype Token = Punct(c: char) | Str(text: seq<Unit>) | Word(word: string)

  datatype Mode = Outside | InWord(word: string) | InString(text: seq<Unit>) | Backslash(text: seq<Unit>)
                | Hex(text: seq<Unit>, digits: nat, value: nat)

  predicate IsPunct(c: char) {
    c == '{' || c == '}' || c == '[' || c == ']' || c == ':' || c == ','
  }

  predicate IsWhite(c: char) {
    c == ' ' || c == '\t' || c == '\n' || c == '\r'
  }

  /** The characters of numbers and of true, false and null. */
  predicate IsWordChar(c: char) {
    '0' <= c <= '9' || 'a' <= c <= 'z' || c == 'E' || c == '+' || c == '-' || c == '.'
  }

  function SimpleEscape(c: char): Option<char> {
    if c == '\"' || c == '\\' || c == '/' then Some(c)
    else if c == 'b' then Some(8 as char)
    else if c == 'f' then Some(12 as char)
    else if c == 'n' then Some('\n')
    else if c == 'r' then Some('\r')
    else if c == 't' then Some('\t')
    else None
  }

  /** The tokens a finished word leaves behind. */
  function Flush(m: Mode): seq<Token> {
    if m.InWord? then [Word(m.word)] else []
  }

  datatype Scan = Scan(mode: Mode, tokens: seq<Token>)

  /** One character of a JSON text; nothing when it is not allowed there. */
  function ScanChar(s: Scan, c: char): Option<Scan> {
    match s.mode
    case InString(text) =>
      if c == '\"' then Some(Scan(Outside, s.tokens + [Str(text)]))
      else if c == '\\' then Some(s.(mode := Backslash(text)))
      else if c as int < 0x20 then None
      else Some(s.(mode := InString(text + [Byte(c)])))
    case Backslash(text) =>
      if c == 'u' then Some(s.(mode := Hex(text, 0, 0)))
      else (match SimpleEscape(c)
        case None => None
        case Some(d) => Some(s.(mode := InString(text + [Byte(d)]))))
    case Hex(text, digits, value) =>
      (match HexValue(c)
       case None => None
       case Some(d) =>
         var v := 16 * value + d;
         if digits < 3 then Some(s.(mode := Hex(text, digits + 1, v)))
         else Some(s.(mode := InString(text + [UnitOf(v)]))))
    case _ =>
      if c == '\"' then Some(Scan(InString([]), s.tokens + Flush(s.mode)))
      else if IsPunct(c) then Some(Scan(Outside, s.tokens + Flush(s.mode) + [Punct(c)]))
      else if IsWhite(c) then Some(Scan(Outside, s.tokens + Flush(s.mode)))
      else if IsWordChar(c) then
        Some(s.(mode := InWord(if s.mode.InWord? then s.mode.word + [c] else [c])))
      else None
  }

  function ScanText(s: Scan, text: string): Option<Scan>
    decreases |text|
  {
    if |text| == 0 then Some(s)
    else match ScanChar(s, text[0])
      case None => None
      case Some(t) => ScanText(t, text[1..])
  }

  /** The tokens of a JSON text, when it has a lexical structure at all. */
  function Lex(text: string): Option<seq<Token>> {
    match ScanText(Scan(Outside, []), text)
    case None => None
    case Some(end) => if end.mode.Outside? || end.mode.InWord? then Some(end.tokens + Flush(end.mode)) else None
  }

  lemma {:induction false} ScanAppend(s: Scan, a: string, b: string)
    ensures ScanText(s, a + b) == if ScanText(s, a).None? then None else ScanText(ScanText(s, a).value, b)
    decreases |a|
  {
    if |a| == 0 {
      assert a + b == b;
    } else {
      assert (a + b)[1..] == a[1..] + b;
      match ScanChar(s, a[0])
      case None =>
      case Some(t) => ScanAppend(t, a[1..], b);
    }
  }

  /** Inside a string the escape denotes "<" itself. */
  lemma OpensEscape(s: Scan)
    requires s.mode.InString?
    ensures ScanChar(s, '\\') == Some(s.(mode := Backslash(s.mode.text)))
    ensures ScanChar(s.(mode := Backslash(s.mode.text)), 'u') == Some(s.(mode := Hex(s.mode.text, 0, 0)))
    ensures ScanChar(s, '<') == Some(s.(mode := InString(s.mode.text + [Byte('<')])))
  {
  }

  lemma EscapeDigits(s: Scan, text: seq<Unit>)
    ensures ScanChar(s.(mode := Hex(text, 0, 0)), '0') == Some(s.(mode := Hex(text, 1, 0)))
    ensures ScanChar(s.(mode := Hex(text, 1, 0)), '0') == Some(s.(mode := Hex(text, 2, 0)))
    ensures ScanChar(s.(mode := Hex(text, 2, 0)), '3') == Some(s.(mode := Hex(text, 3, 3)))
  {
  }

  lemma EscapeDenotesLess(s: Scan)
    requires s.mode.InString?
    ensures ScanText(s, ESCAPE) == ScanText(s, ['<'])
  {
    var text := s.mode.text;
    var s6 := s.(mode := InString(text + [Byte('<')]));
    OpensEscape(s);
    EscapeDigits(s, text);
    LastDigit(s.(mode := Hex(text, 3, 3)));
    ScanSix(s, s.(mode := Backslash(text)), s.(mode := Hex(text, 0, 0)), s.(mode := Hex(text, 1, 0)),
            s.(mode := Hex(text, 2, 0)), s.(mode := Hex(text, 3, 3)), s6);
    OneChar(s, '<');
  }

  lemma LastDigit(s: Scan)
    requires s.mode.Hex? && s.mode.digits == 3 && s.mode.value == 3
    ensures ScanChar(s, 'c') == Some(s.(mode := InString(s.mode.text + [Byte('<')])))
  {
  }

  lemma ScanSix(s: Scan, s1: Scan, s2: Scan, s3: Scan, s4: Scan, s5: Scan, s6: Scan)
    requires ScanChar(s, '\\') == Some(s1) && ScanChar(s1, 'u') == Some(s2) && ScanChar(s2, '0') == Some(s3)
    requires ScanChar(s3, '0') == Some(s4) && ScanChar(s4, '3') == Some(s5) && ScanChar(s5, 'c') == Some(s6)
    ensures ScanText(s, ESCAPE) == Some(s6)
  {
  }

  /** Wherever a text can be scanned, its escaped form scans to the same place. */
  lemma {:induction false} EscapedScansAlike(s: Scan, text: string)
    requires ScanText(s, text).Some?
    ensures ScanText(s, Escaped(text)) == ScanText(s, text)
    decreases |text|
  {
    if |text| > 0 {
      var head, t := if SpecialAt(text, 0) then ESCAPE else [text[0]], ScanChar(s, text[0]).value;
      EscapedScansAlike(t, text[1..]);
      ScanAppend(s, head, Escaped(text[1..]));
      OneChar(s, text[0]);
      if SpecialAt(text, 0) {
        LessOnlyInStrings(s, text);
        EscapeDenotesLess(s);
      }
    }
  }

  lemma OneChar(s: Scan, c: char)
    ensures ScanText(s, [c]) == ScanChar(s, c)
  {
  }

  /** A "<" that can be scanned and is followed by "/" or "!" is a character of a string literal. */
  lemma LessOnlyInStrings(s: Scan, text: string)
    requires ScanText(s, text).Some? && SpecialAt(text, 0)
    ensures s.mode.InString?
  {
  }

  /** For every JSON text and every parser of its tokens, escaping changes no value. */
  lemma EscapingKeepsTheValue<V>(text: string, parse: seq<Token> -> Option<V>)
    requires Lex(text).Some?
    ensures Lex(Escaped(text)) == Lex(text)
    ensures parse(Lex(Escaped(text)).value) == parse(Lex(text).value)
  {
    EscapedScansAlike(Scan(Outside, []), text);
  }
}
