/**
 The payload document read back: token for token it is the object with the pipeline's
 own values, on any page, initial or not, and also once it is escaped for a script element.
 */
module PayloadReads {
  import opened Text
  import opened PayloadWriter
  import opened Sorting
  import S = ScriptEscape

  // ------------------------------------------------------- texts that read as tokens

  /** A scan has ended outside strings, with these tokens. */
  ghost predicate Ends(r: Option<S.Scan>, tokens: seq<S.Token>) {
    && r.Some?
    && (r.value.mode.Outside? || r.value.mode.InWord?)
    && r.value.tokens + S.Flush(r.value.mode) == tokens
  }

  ghost predicate ReadsFrom(s: S.Scan, text: string, tokens: seq<S.Token>) {
    s.mode.Outside? ==> Ends(S.ScanText(s, text), s.tokens + tokens)
  }

  /** Wherever a value may stand, the text reads as these tokens. */
  ghost predicate Reads(text: string, tokens: seq<S.Token>) {
    forall s :: ReadsFrom(s, text, tokens)
  }

  lemma ReadsLexes(text: string, tokens: seq<S.Token>)
    requires Reads(text, tokens)
    ensures S.Lex(text) == Some(tokens)
  {
    var start := S.Scan(S.Outside, []);
    assert ReadsFrom(start, text, tokens);
    assert [] + tokens == tokens;
  }

  lemma AfterPunct(s: S.Scan, c: char)
    requires S.IsPunct(c) && (s.mode.Outside? || s.mode.InWord?)
    ensures S.ScanChar(s, c) == Some(S.Scan(S.Outside, s.tokens + S.Flush(s.mode) + [S.Punct(c)]))
  {
  }

  lemma ScansOn(s: S.Scan, a: string, mid: S.Scan, c: char, next: S.Scan, b: string)
    requires S.ScanText(s, a) == Some(mid) && S.ScanChar(mid, c) == Some(next)
    ensures S.ScanText(s, a + [c] + b) == S.ScanText(next, b)
  {
    S.ScanAppend(s, a, [c] + b);
    assert a + [c] + b == a + ([c] + b);
    S.ScanAppend(mid, [c], b);
    S.OneChar(mid, c);
  }

  lemma TokensJoin(a: seq<S.Token>, b: seq<S.Token>, c: S.Token, d: seq<S.Token>)
    ensures a + b + [c] + d == a + (b + [c] + d)
  {
  }

  lemma JoinedFrom(s: S.Scan, mid: S.Scan, a: string, ta: seq<S.Token>, c: char, b: string, tb: seq<S.Token>)
    requires S.ScanText(s, a) == Some(mid) && Ends(Some(mid), s.tokens + ta) && S.IsPunct(c)
    requires ReadsFrom(S.Scan(S.Outside, s.tokens + ta + [S.Punct(c)]), b, tb)
    ensures Ends(S.ScanText(s, a + [c] + b), s.tokens + (ta + [S.Punct(c)] + tb))
  {
    var next := S.Scan(S.Outside, s.tokens + ta + [S.Punct(c)]);
    AfterPunct(mid, c);
    ScansOn(s, a, mid, c, next, b);
    TokensJoin(s.tokens, ta, S.Punct(c), tb);
  }

  /** A text, a piece of punctuation, and another text. */
  lemma ReadsJoined(a: string, ta: seq<S.Token>, c: char, b: string, tb: seq<S.Token>)
    requires Reads(a, ta) && Reads(b, tb) && S.IsPunct(c)
    ensures Reads(a + [c] + b, ta + [S.Punct(c)] + tb)
  {
    forall s
      ensures ReadsFrom(s, a + [c] + b, ta + [S.Punct(c)] + tb)
    {
      if s.mode.Outside? {
        assert ReadsFrom(s, a, ta);
        assert ReadsFrom(S.Scan(S.Outside, s.tokens + ta + [S.Punct(c)]), b, tb);
        JoinedFrom(s, S.ScanText(s, a).value, a, ta, c, b, tb);
      }
    }
  }

  lemma NothingReads()
    ensures Reads("", [])
  {
    forall s
      ensures ReadsFrom(s, "", [])
    {
      assert s.tokens + [] == s.tokens;
    }
  }

  lemma ReadsBraced(a: string, ta: seq<S.Token>)
    requires Reads(a, ta)
    ensures Reads("{" + a + "}", [S.Punct('{')] + ta + [S.Punct('}')])
  {
    NothingReads();
    ReadsJoined("", [], '{', a, ta);
    assert "" + ['{'] + a == "{" + a && [] + [S.Punct('{')] + ta == [S.Punct('{')] + ta;
    ReadsJoined("{" + a, [S.Punct('{')] + ta, '}', "", []);
    assert "{" + a + ['}'] + "" == "{" + a + "}";
    assert [S.Punct('{')] + ta + [S.Punct('}')] + [] == [S.Punct('{')] + ta + [S.Punct('}')];
  }

  // ------------------------------------------------------------------- strings

  predicate Ascii(s: string) {
    forall i :: 0 <= i < |s| ==> s[i] as int < 0x80
  }

  function Units(s: string): seq<S.Unit> {
    seq(|s|, i requires 0 <= i < |s| => S.Byte(s[i]))
  }

  lemma TwoChars(s: S.Scan, a: char, b: char, mid: S.Scan, end: S.Scan)
    requires S.ScanChar(s, a) == Some(mid) && S.ScanChar(mid, b) == Some(end)
    ensures S.ScanText(s, [a, b]) == Some(end)
  {
    S.OneChar(mid, b);
    assert [a, b][1..] == [b];
  }

  lemma ScansAsSix(s: S.Scan, c: char)
    requires s.mode.InString? && c as int < 0x80
    ensures S.ScanText(s, ['\\', 'u', '0', '0', HexDigit(c as int / 16), HexDigit(c as int % 16)])
         == Some(s.(mode := S.InString(s.mode.text + [S.Byte(c)])))
  {
    var t, hi, lo := s.mode.text, c as int / 16, c as int % 16;
    HexDigitValue(hi);
    HexDigitValue(lo);
    var s2 := s.(mode := S.Hex(t, 0, 0));
    var s4 := s.(mode := S.Hex(t, 2, 0));
    TwoChars(s, '\\', 'u', s.(mode := S.Backslash(t)), s2);
    TwoChars(s2, '0', '0', s.(mode := S.Hex(t, 1, 0)), s4);
    LastTwo(s4, t, hi, lo, c);
    FourFirst(s, s2, s4, HexDigit(hi), HexDigit(lo));
  }

  lemma LastTwo(s4: S.Scan, t: seq<S.Unit>, hi: nat, lo: nat, c: char)
    requires s4.mode == S.Hex(t, 2, 0) && hi < 16 && lo < 16 && c as int == 16 * hi + lo < 0x80
    ensures S.ScanText(s4, [HexDigit(hi), HexDigit(lo)]) == Some(s4.(mode := S.InString(t + [S.Byte(c)])))
  {
    HexDigitValue(hi);
    HexDigitValue(lo);
    TwoChars(s4, HexDigit(hi), HexDigit(lo), s4.(mode := S.Hex(t, 3, hi)), s4.(mode := S.InString(t + [S.Byte(c)])));
  }

  lemma FourFirst(s: S.Scan, s2: S.Scan, s4: S.Scan, a: char, b: char)
    requires S.ScanText(s, ['\\', 'u']) == Some(s2) && S.ScanText(s2, ['0', '0']) == Some(s4)
    ensures S.ScanText(s, ['\\', 'u', '0', '0', a, b]) == S.ScanText(s4, [a, b])
  {
    S.ScanAppend(s2, ['0', '0'], [a, b]);
    S.ScanAppend(s, ['\\', 'u'], ['0', '0'] + [a, b]);
    assert ['\\', 'u', '0', '0', a, b] == ['\\', 'u'] + (['0', '0'] + [a, b]);
  }

  lemma PlainByte(s: S.Scan, c: char)
    requires s.mode.InString? && c as int < 0x80 && |EscapeByte(c)| == 1
    ensures EscapeByte(c) == [c] && S.ScanChar(s, c) == Some(s.(mode := S.InString(s.mode.text + [S.Byte(c)])))
  {
  }

  lemma ByteShape(c: char)
    requires c as int < 0x80
    ensures |EscapeByte(c)| == 1 || |EscapeByte(c)| == 2 || |EscapeByte(c)| == 6
    ensures |EscapeByte(c)| == 6 ==>
      EscapeByte(c) == ['\\', 'u', '0', '0', HexDigit(c as int / 16), HexDigit(c as int % 16)]
  {
  }

  /** One escaped byte denotes that byte. */
  lemma ByteReads(s: S.Scan, c: char)
    requires s.mode.InString? && c as int < 0x80
    ensures S.ScanText(s, EscapeByte(c)) == Some(s.(mode := S.InString(s.mode.text + [S.Byte(c)])))
  {
    ByteShape(c);
    if |EscapeByte(c)| == 6 {
      ScansAsSix(s, c);
    } else if |EscapeByte(c)| == 2 {
      ShortEscape(s, c);
    } else {
      PlainByte(s, c);
      S.OneChar(s, c);
    }
  }

  lemma ShortInverse(c: char)
    requires c as int < 0x80 && |EscapeByte(c)| == 2
    ensures EscapeByte(c)[0] == '\\' && EscapeByte(c)[1] != 'u' && S.SimpleEscape(EscapeByte(c)[1]) == Some(c)
  {
  }

  lemma AfterBackslash(s: S.Scan, e: char, c: char)
    requires s.mode.Backslash? && e != 'u' && S.SimpleEscape(e) == Some(c)
    ensures S.ScanChar(s, e) == Some(s.(mode := S.InString(s.mode.text + [S.Byte(c)])))
  {
  }

  lemma ShortEscape(s: S.Scan, c: char)
    requires s.mode.InString? && c as int < 0x80 && |EscapeByte(c)| == 2
    ensures S.ScanText(s, EscapeByte(c)) == Some(s.(mode := S.InString(s.mode.text + [S.Byte(c)])))
  {
    var e, mid := EscapeByte(c), s.(mode := S.Backslash(s.mode.text));
    ShortInverse(c);
    assert e == ['\\', e[1]];
    AfterBackslash(mid, e[1], c);
    TwoChars(s, '\\', e[1], mid, s.(mode := S.InString(s.mode.text + [S.Byte(c)])));
  }

  lemma {:induction false} EscapedReads<V>(j: Json<V>, text: string, s: S.Scan)
    requires s.mode.InString? && Ascii(text)
    ensures S.ScanText(s, EscapeText(j, text)) == Some(s.(mode := S.InString(s.mode.text + Units(text))))
    decreases |text|
  {
    if |text| == 0 {
      assert s.mode.text + Units(text) == s.mode.text;
    } else {
      var next := s.(mode := S.InString(s.mode.text + [S.Byte(text[0])]));
      ByteReads(s, text[0]);
      EscapedReads(j, text[1..], next);
      S.ScanAppend(s, EscapeByte(text[0]), EscapeText(j, text[1..]));
      assert s.mode.text + [S.Byte(text[0])] + Units(text[1..]) == s.mode.text + Units(text);
    }
  }

  /** A written string is read back as itself. */
  lemma QuoteReads<V>(j: Json<V>, text: string)
    requires Ascii(text)
    ensures Reads(Quote(j, text), [S.Str(Units(text))])
  {
    forall s
      ensures ReadsFrom(s, Quote(j, text), [S.Str(Units(text))])
    {
      if s.mode.Outside? {
        QuoteScans(j, text, s);
      }
    }
  }

  lemma QuoteScans<V>(j: Json<V>, text: string, s: S.Scan)
    requires Ascii(text) && s.mode.Outside?
    ensures S.ScanText(s, Quote(j, text)) == Some(S.Scan(S.Outside, s.tokens + [S.Str(Units(text))]))
  {
    var open := S.Scan(S.InString([]), s.tokens);
    assert s.tokens + [] == s.tokens;
    S.OneChar(s, '\"');
    EscapedReads(j, text, open);
    assert [] + Units(text) == Units(text);
    var full := open.(mode := S.InString(Units(text)));
    S.OneChar(full, '\"');
    S.ScanAppend(open, EscapeText(j, text), ['\"']);
    S.ScanAppend(s, ['\"'], EscapeText(j, text) + ['\"']);
    assert Quote(j, text) == ['\"'] + (EscapeText(j, text) + ['\"']);
  }

  // ------------------------------------------------------- words, lists and entries

  function WordSoFar(m: S.Mode): string {
    if m.InWord? then m.word else ""
  }

  lemma WordChar(s: S.Scan, c: char)
    requires (s.mode.Outside? || s.mode.InWord?) && S.IsWordChar(c)
    ensures S.ScanChar(s, c) == Some(s.(mode := S.InWord(WordSoFar(s.mode) + [c])))
  {
    assert "" + [c] == [c];
  }

  lemma ScanFirst(s: S.Scan, c: char, rest: string, next: S.Scan)
    requires S.ScanChar(s, c) == Some(next)
    ensures S.ScanText(s, [c] + rest) == S.ScanText(next, rest)
  {
    assert ([c] + rest)[1..] == rest;
  }

  lemma {:induction false} WordScans(s: S.Scan, w: string)
    requires (s.mode.Outside? || s.mode.InWord?) && |w| > 0 && forall i :: 0 <= i < |w| ==> S.IsWordChar(w[i])
    ensures S.ScanText(s, w) == Some(s.(mode := S.InWord(WordSoFar(s.mode) + w)))
    decreases |w|
  {
    var next := s.(mode := S.InWord(WordSoFar(s.mode) + [w[0]]));
    WordChar(s, w[0]);
    ScanFirst(s, w[0], w[1..], next);
    assert w == [w[0]] + w[1..];
    if |w| > 1 {
      WordScans(next, w[1..]);
      Associates(WordSoFar(s.mode), [w[0]], w[1..]);
    } else {
      assert w[1..] == [] && w == [w[0]];
    }
  }

  /** Numbers, true, false and null. */
  lemma WordReads(w: string)
    requires |w| > 0 && forall i :: 0 <= i < |w| ==> S.IsWordChar(w[i])
    ensures Reads(w, [S.Word(w)])
  {
    forall s
      ensures ReadsFrom(s, w, [S.Word(w)])
    {
      if s.mode.Outside? {
        WordScans(s, w);
        assert "" + w == w;
      }
    }
  }

  lemma IntReads(n: int)
    ensures Reads(IntText(n), [S.Word(IntText(n))])
  {
    assert forall i :: 0 <= i < |IntText(n)| ==> S.IsWordChar(IntText(n)[i]);
    WordReads(IntText(n));
  }

  /** Tokens with commas between. */
  function Commas(ts: seq<seq<S.Token>>): seq<S.Token> {
    if |ts| == 0 then []
    else if |ts| == 1 then ts[0]
    else ts[0] + [S.Punct(',')] + Commas(ts[1..])
  }

  ghost predicate AllRead(texts: seq<string>, ts: seq<seq<S.Token>>) {
    |texts| == |ts| && forall i :: 0 <= i < |texts| ==> Reads(texts[i], ts[i])
  }

  lemma {:induction false} ListReads(texts: seq<string>, ts: seq<seq<S.Token>>)
    requires AllRead(texts, ts)
    ensures Reads(Join(texts, ","), Commas(ts))
    decreases |texts|
  {
    if |texts| == 0 {
      NothingReads();
    } else if |texts| > 1 {
      ListReads(texts[1..], ts[1..]);
      ReadsJoined(texts[0], ts[0], ',', Join(texts[1..], ","), Commas(ts[1..]));
    }
  }

  /** The name of a field: letters alone, so it stands for itself. */
  predicate PlainName(name: string) {
    forall i :: 0 <= i < |name| ==> 'a' <= name[i] <= 'z' || 'A' <= name[i] <= 'Z'
  }

  lemma HeadNames()
    ensures PlainName("routeId") && PlainName("data") && PlainName("layoutData") && PlainName("form")
  {
  }

  lemma MiddleNames()
    ensures PlainName("url") && PlainName("params") && PlainName("status") && PlainName("error")
  {
  }

  lemma TailNames()
    ensures PlainName("manifest") && PlainName("deps")
  {
  }

  lemma VersionNames()
    ensures PlainName("appVersion") && PlainName("csrfToken") && PlainName("versionPoll")
  {
  }

  lemma PlainNameIsKept(name: string)
    requires PlainName(name)
    ensures !NeedsEscape(name) && Ascii(name)
  {
  }

  lemma EntryReads(name: string, text: string, tokens: seq<S.Token>)
    requires PlainName(name) && Reads(text, tokens)
    ensures Reads(Entry(name, text), [S.Str(Units(name)), S.Punct(':')] + tokens)
  {
    var j: Json<int> := Json(_ => None, _ => None, _ => "", _ => 0);
    PlainNameIsKept(name);
    QuoteReads(j, name);
    FastPathIsExact(j, name);
    ReadsJoined(Quote(j, name), [S.Str(Units(name))], ':', text, tokens);
    assert Entry(name, text) == Quote(j, name) + [':'] + text;
    assert [S.Str(Units(name))] + [S.Punct(':')] + tokens == [S.Str(Units(name)), S.Punct(':')] + tokens;
  }

  // ------------------------------------------------------------ objects of fields

  /** The text is a JSON value of its own. */
  ghost predicate Readable(text: string) {
    S.Lex(text).Some? && Reads(text, S.Lex(text).value)
  }

  lemma ReadsIsReadable(text: string, tokens: seq<S.Token>)
    requires Reads(text, tokens)
    ensures Readable(text) && S.Lex(text) == Some(tokens)
  {
    ReadsLexes(text, tokens);
  }

  function MemberTokens(name: string, tokens: seq<S.Token>): seq<S.Token> {
    [S.Str(Units(name)), S.Punct(':')] + tokens
  }

  /** The tokens of each kept field, in order. */
  function KeptTokens(fields: seq<Field>): seq<seq<S.Token>> {
    if |fields| == 0 then []
    else
      var f := fields[|fields| - 1];
      KeptTokens(fields[..|fields| - 1])
      + if f.kept && f.text.Some? && S.Lex(f.text.value).Some? then
          [MemberTokens(f.name, S.Lex(f.text.value).value)]
        else []
  }

  function ObjectTokens(members: seq<seq<S.Token>>): seq<S.Token> {
    [S.Punct('{')] + Commas(members) + [S.Punct('}')]
  }

  ghost predicate FieldReads(f: Field) {
    f.kept && f.text.Some? ==> Readable(f.text.value) && PlainName(f.name)
  }

  ghost predicate AllFieldsRead(fields: seq<Field>) {
    forall i :: 0 <= i < |fields| ==> FieldReads(fields[i])
  }

  lemma {:induction false} EntriesRead(fields: seq<Field>)
    requires Entries(fields).Some? && AllFieldsRead(fields)
    ensures AllRead(Entries(fields).value, KeptTokens(fields))
  {
    if |fields| > 0 {
      var before, f := fields[..|fields| - 1], fields[|fields| - 1];
      EntriesRead(before);
      assert FieldReads(f);
      if f.kept {
        EntryReads(f.name, f.text.value, S.Lex(f.text.value).value);
      }
    }
  }

  /** The document of some fields reads as the object of those that are kept. */
  lemma FieldsRead(fields: seq<Field>)
    requires Entries(fields).Some? && AllFieldsRead(fields)
    ensures Reads("{" + Join(Entries(fields).value, ",") + "}", ObjectTokens(KeptTokens(fields)))
  {
    EntriesRead(fields);
    ListReads(Entries(fields).value, KeptTokens(fields));
    ReadsBraced(Join(Entries(fields).value, ","), Commas(KeptTokens(fields)));
  }

  function PairTokens(k: string, v: string): seq<S.Token> {
    MemberTokens(k, [S.Str(Units(v))])
  }

  function PairsTokens(m: map<string, string>, keys: seq<string>): seq<seq<S.Token>>
    requires forall k :: k in keys ==> k in m
  {
    if |keys| == 0 then []
    else PairsTokens(m, keys[..|keys| - 1]) + [PairTokens(keys[|keys| - 1], m[keys[|keys| - 1]])]
  }

  predicate AsciiMap(m: map<string, string>) {
    forall k :: k in m ==> Ascii(k) && Ascii(m[k])
  }

  lemma MemberReads<V>(j: Json<V>, k: string, v: string)
    requires Ascii(k) && Ascii(v)
    ensures Reads(Member(j, k, v), PairTokens(k, v))
  {
    QuoteReads(j, k);
    QuoteReads(j, v);
    ReadsJoined(Quote(j, k), [S.Str(Units(k))], ':', Quote(j, v), [S.Str(Units(v))]);
    assert Member(j, k, v) == Quote(j, k) + [':'] + Quote(j, v);
    assert [S.Str(Units(k))] + [S.Punct(':')] + [S.Str(Units(v))] == PairTokens(k, v);
  }

  lemma {:induction false} MembersRead<V>(j: Json<V>, m: map<string, string>, keys: seq<string>)
    requires AsciiMap(m) && forall k :: k in keys ==> k in m
    ensures AllRead(Members(j, m, keys), PairsTokens(m, keys))
  {
    if |keys| > 0 {
      MembersRead(j, m, keys[..|keys| - 1]);
      MemberReads(j, keys[|keys| - 1], m[keys[|keys| - 1]]);
    }
  }

  /** A string map reads as the object of its pairs, keys in order. */
  lemma MapReads<V>(j: Json<V>, m: map<string, string>, order: seq<string>)
    requires AsciiMap(m) && forall k :: k in SortStrings(order) ==> k in m
    ensures Reads(MapJson(j, Some(m), order), ObjectTokens(PairsTokens(m, SortStrings(order))))
  {
    var keys := SortStrings(order);
    MembersRead(j, m, keys);
    ListReads(Members(j, m, keys), PairsTokens(m, keys));
    ReadsBraced(Join(Members(j, m, keys), ","), Commas(PairsTokens(m, keys)));
  }

  /** The nil map is null. */
  lemma NilMapReads<V>(j: Json<V>, order: seq<string>)
    ensures Reads(MapJson(j, None, order), [S.Word("null")])
  {
    WordReads("null");
  }

  // ---------------------------------------------------------------- whole pages

  /** Marshalled values are JSON values. */
  ghost predicate ValuesRead<V(!new)>(j: Json<V>) {
    && (forall v :: j.value(v).Some? ==> Readable(j.value(v).value))
    && (forall vs :: j.list(vs).Some? ==> Readable(j.list(vs).value))
  }

  /** What the pipeline renders a page from. */
  datatype Page<V> = Page(
    pattern: string, data: V, layoutDatas: seq<V>, params: Option<map<string, string>>, url: string,
    form: Option<Form<V>>, csrf: string, nil: V, initial: bool, deps: seq<V>)

  function ParamsOf<V>(pg: Page<V>): map<string, string> {
    if pg.params.Some? then pg.params.value else map[]
  }

  /** The payload the pipeline builds for it. */
  function PayloadOf<V>(s: Server<V>, pg: Page<V>): Payload<V> {
    var p := BuildClientPayload(pg.pattern, pg.data, pg.layoutDatas, pg.params, pg.url, pg.form, pg.csrf, pg.nil);
    (if pg.initial then ApplyInitialFields(s, p) else p).(deps := pg.deps)
  }

  /** Status 200, unless a form action gave another. */
  function StatusText<V>(pg: Page<V>): string {
    if pg.form.Some? && pg.form.value.code != 0 then IntText(pg.form.value.code) else "200"
  }

  /** The members of the document, in terms of the page. */
  function PageFields<V>(j: Json<V>, s: Server<V>, pg: Page<V>, order: seq<string>): seq<Field>
    requires forall k :: k in SortStrings(order) ==> k in ParamsOf(pg)
  {
    PageHead(j, pg) + PageMiddle(j, pg, order) + PageTail(j, s, pg)
  }

  function PageHead<V>(j: Json<V>, pg: Page<V>): seq<Field> {
    [Field("routeId", true, Some(Quote(j, pg.pattern))),
     Field("data", true, j.value(pg.data)),
     Field("layoutData", pg.layoutDatas != [], j.list(pg.layoutDatas)),
     Field("form", true, j.value(if pg.form.Some? then pg.form.value.data else pg.nil))]
  }

  function PageMiddle<V>(j: Json<V>, pg: Page<V>, order: seq<string>): seq<Field>
    requires forall k :: k in SortStrings(order) ==> k in ParamsOf(pg)
  {
    [Field("url", true, Some(Quote(j, pg.url))),
     Field("params", true, Some(MapJson(j, Some(ParamsOf(pg)), order))),
     Field("status", true, Some(StatusText(pg))),
     Field("error", true, Some("null"))]
  }

  /** The manifest, the version and the poll settings go with initial pages alone. */
  function PageTail<V>(j: Json<V>, s: Server<V>, pg: Page<V>): seq<Field> {
    var versioned := pg.initial && s.appVersion != "";
    [Field("manifest", pg.initial && s.clientManifest != [], j.list(if pg.initial then s.clientManifest else [])),
     Field("deps", pg.deps != [], j.list(pg.deps)),
     Field("appVersion", versioned, Some(Quote(j, if versioned then s.appVersion else ""))),
     Field("csrfToken", pg.csrf != "", Some(Quote(j, pg.csrf))),
     Field("versionPoll", versioned, if versioned then j.value(s.poll) else Some("null"))]
  }

  lemma TwoHundred()
    ensures IntText(200) == "200"
  {
    assert Itoa(2) == "2" && Itoa(20) == "20" && Itoa(200) == "200";
  }

  lemma HasHead<V>(j: Json<V>, s: Server<V>, pg: Page<V>)
    ensures HeadFields(j, PayloadOf(s, pg)) == PageHead(j, pg)
    ensures PayloadOf(s, pg).params == Some(ParamsOf(pg))
  {
  }

  lemma HasMiddle<V>(j: Json<V>, s: Server<V>, pg: Page<V>, order: seq<string>)
    requires forall k :: k in SortStrings(order) ==> k in ParamsOf(pg)
    requires PayloadOf(s, pg).params == Some(ParamsOf(pg))
    ensures MiddleFields(j, PayloadOf(s, pg), order) == PageMiddle(j, pg, order)
  {
    TwoHundred();
  }

  lemma HasTail<V>(j: Json<V>, s: Server<V>, pg: Page<V>)
    ensures TailFields(j, PayloadOf(s, pg)) == PageTail(j, s, pg)
  {
  }

  /** The struct's fields, in its order, are the members of the page. */
  lemma PageHasFields<V>(j: Json<V>, s: Server<V>, pg: Page<V>, order: seq<string>)
    requires forall k :: k in SortStrings(order) ==> k in ParamsOf(pg)
    ensures PayloadOf(s, pg).params == Some(ParamsOf(pg))
    ensures var p := PayloadOf(s, pg);
      HeadFields(j, p) + MiddleFields(j, p, order) + TailFields(j, p) == PageFields(j, s, pg, order)
  {
    HasHead(j, s, pg);
    HasMiddle(j, s, pg, order);
    HasTail(j, s, pg);
  }

  predicate AsciiPage<V>(s: Server<V>, pg: Page<V>) {
    Ascii(pg.pattern) && Ascii(pg.url) && AsciiMap(ParamsOf(pg)) && Ascii(pg.csrf) && Ascii(s.appVersion)
  }

  lemma StringReads<V>(j: Json<V>, name: string, kept: bool, text: string)
    requires Ascii(text) && PlainName(name)
    ensures FieldReads(Field(name, kept, Some(Quote(j, text))))
  {
    QuoteReads(j, text);
    ReadsIsReadable(Quote(j, text), [S.Str(Units(text))]);
  }

  lemma ValueReads<V(!new)>(j: Json<V>, name: string, kept: bool, v: V, vs: seq<V>)
    requires ValuesRead(j) && PlainName(name)
    ensures FieldReads(Field(name, kept, j.value(v))) && FieldReads(Field(name, kept, j.list(vs)))
  {
  }

  lemma NullReads(name: string, kept: bool)
    requires PlainName(name)
    ensures FieldReads(Field(name, kept, Some("null")))
  {
    WordReads("null");
    ReadsIsReadable("null", [S.Word("null")]);
  }

  lemma StatusReads<V>(pg: Page<V>)
    ensures FieldReads(Field("status", true, Some(StatusText(pg))))
  {
    MiddleNames();
    TwoHundred();
    var n := if pg.form.Some? && pg.form.value.code != 0 then pg.form.value.code else 200;
    IntReads(n);
    ReadsIsReadable(IntText(n), [S.Word(IntText(n))]);
  }

  lemma ParamsRead<V>(j: Json<V>, m: map<string, string>, order: seq<string>)
    requires AsciiMap(m) && forall k :: k in SortStrings(order) ==> k in m
    ensures FieldReads(Field("params", true, Some(MapJson(j, Some(m), order))))
  {
    MiddleNames();
    MapReads(j, m, order);
    ReadsIsReadable(MapJson(j, Some(m), order), ObjectTokens(PairsTokens(m, SortStrings(order))));
  }

  lemma FourRead(a: Field, b: Field, c: Field, d: Field)
    requires FieldReads(a) && FieldReads(b) && FieldReads(c) && FieldReads(d)
    ensures AllFieldsRead([a, b, c, d])
  {
  }

  lemma HeadReads<V(!new)>(j: Json<V>, s: Server<V>, pg: Page<V>)
    requires ValuesRead(j) && AsciiPage(s, pg)
    ensures AllFieldsRead(PageHead(j, pg))
  {
    HeadNames();
    StringReads(j, "routeId", true, pg.pattern);
    ValueReads(j, "data", true, pg.data, []);
    ValueReads(j, "layoutData", pg.layoutDatas != [], pg.nil, pg.layoutDatas);
    ValueReads(j, "form", true, if pg.form.Some? then pg.form.value.data else pg.nil, []);
    var f := PageHead(j, pg);
    FourRead(f[0], f[1], f[2], f[3]);
    assert f == [f[0], f[1], f[2], f[3]];
  }

  lemma MiddleReads<V>(j: Json<V>, s: Server<V>, pg: Page<V>, order: seq<string>)
    requires forall k :: k in SortStrings(order) ==> k in ParamsOf(pg)
    requires AsciiPage(s, pg)
    ensures AllFieldsRead(PageMiddle(j, pg, order))
  {
    MiddleNames();
    StringReads(j, "url", true, pg.url);
    ParamsRead(j, ParamsOf(pg), order);
    StatusReads(pg);
    NullReads("error", true);
    var f := PageMiddle(j, pg, order);
    FourRead(f[0], f[1], f[2], f[3]);
    assert f == [f[0], f[1], f[2], f[3]];
  }

  lemma PollReads<V(!new)>(j: Json<V>, s: Server<V>, versioned: bool)
    requires ValuesRead(j)
    ensures FieldReads(Field("versionPoll", versioned, if versioned then j.value(s.poll) else Some("null")))
  {
    VersionNames();
    ValueReads(j, "versionPoll", versioned, s.poll, []);
    NullReads("versionPoll", versioned);
  }

  lemma TailReads<V(!new)>(j: Json<V>, s: Server<V>, pg: Page<V>)
    requires ValuesRead(j) && AsciiPage(s, pg)
    ensures AllFieldsRead(PageTail(j, s, pg))
  {
    var versioned := pg.initial && s.appVersion != "";
    TailNames();
    VersionNames();
    ValueReads(j, "manifest", pg.initial && s.clientManifest != [], pg.nil,
               if pg.initial then s.clientManifest else []);
    ValueReads(j, "deps", pg.deps != [], pg.nil, pg.deps);
    StringReads(j, "appVersion", versioned, if versioned then s.appVersion else "");
    StringReads(j, "csrfToken", pg.csrf != "", pg.csrf);
    PollReads(j, s, versioned);
    var f := PageTail(j, s, pg);
    FourRead(f[0], f[1], f[2], f[3]);
    FourRead(f[4], f[4], f[4], f[4]);
    AllReadAppend([f[0], f[1], f[2], f[3]], [f[4], f[4], f[4], f[4]]);
    assert f == ([f[0], f[1], f[2], f[3]] + [f[4], f[4], f[4], f[4]])[..5];
  }

  lemma AllReadAppend(a: seq<Field>, b: seq<Field>)
    requires AllFieldsRead(a) && AllFieldsRead(b)
    ensures AllFieldsRead(a + b)
  {
  }

  lemma PageFieldsRead<V(!new)>(j: Json<V>, s: Server<V>, pg: Page<V>, order: seq<string>)
    requires forall k :: k in SortStrings(order) ==> k in ParamsOf(pg)
    requires ValuesRead(j) && AsciiPage(s, pg)
    ensures AllFieldsRead(PageFields(j, s, pg, order))
  {
    HeadReads(j, s, pg);
    MiddleReads(j, s, pg, order);
    TailReads(j, s, pg);
    AllReadAppend(PageHead(j, pg), PageMiddle(j, pg, order));
    AllReadAppend(PageHead(j, pg) + PageMiddle(j, pg, order), PageTail(j, s, pg));
  }

  /**
   The document the writer makes for a page, when its values marshal, is token for token the object
   with the page's members, and so is what stands in the script element.
   */
  lemma DocumentReads<V(!new)>(j: Json<V>, s: Server<V>, pg: Page<V>, order: seq<string>, doc: Option<string>)
    requires ValuesRead(j) && AsciiPage(s, pg)
    requires forall k :: k in SortStrings(order) ==> k in ParamsOf(pg)
    requires PayloadOf(s, pg).params == Some(ParamsOf(pg))
    requires doc == MarshalPayload(j, PayloadOf(s, pg), order)
    ensures doc.Some? <==> Entries(PageFields(j, s, pg, order)).Some?
    ensures doc.Some? ==>
      var tokens := ObjectTokens(KeptTokens(PageFields(j, s, pg, order)));
      S.Lex(doc.value) == Some(tokens) && S.Lex(S.Escaped(doc.value)) == Some(tokens)
  {
    var fields := PageFields(j, s, pg, order);
    PageHasFields(j, s, pg, order);
    PageFieldsRead(j, s, pg, order);
    if doc.Some? {
      FieldsRead(fields);
      ReadsLexes(doc.value, ObjectTokens(KeptTokens(fields)));
      S.EscapingKeepsTheValue(doc.value, ts => Some(ts));
    }
  }

  /** The payload tag: what the writer makes, escaped, or an empty object when it fails. */
  method PayloadText<V(!new)>(j: Json<V>, s: Server<V>, pg: Page<V>, scan: seq<string>, collect: seq<string>)
    returns (text: string)
    requires Built(j, s) && Enumerates(scan, ParamsOf(pg)) && Enumerates(collect, ParamsOf(pg))
    requires ValuesRead(j) && AsciiPage(s, pg)
    ensures forall k :: k in SortStrings(collect) ==> k in ParamsOf(pg)
    ensures !S.Special(text)
    ensures S.Lex(text) == Some(if Entries(PageFields(j, s, pg, collect)).None? then ObjectTokens([])
                                else ObjectTokens(KeptTokens(PageFields(j, s, pg, collect))))
  {
    EnumerationSorts(ParamsOf(pg), collect);
    PipelinePayloadsAgree(j, s, pg.pattern, pg.data, pg.layoutDatas, pg.params, pg.url, pg.form, pg.csrf, pg.nil,
                          pg.initial, pg.deps);
    var doc := WritePayloadJSON(j, s, PayloadOf(s, pg), scan, collect);
    DocumentReads(j, s, pg, collect, doc);
    if doc.None? {
      EmptyObject();
      return "{}";
    }
    S.NothingSpecialLeft(doc.value);
    text := S.EscapeScriptSpecial(doc.value);
  }

  lemma EmptyObject()
    ensures S.Lex("{}") == Some(ObjectTokens([])) && !S.Special("{}")
  {
    NothingReads();
    ReadsBraced("", []);
    assert "{" + "" + "}" == "{}";
    ReadsLexes("{}", ObjectTokens([]));
  }
}
