/**
 The splice writer for the hydration payload: stable fields come from bytes
 encoded once at server construction, the rest is encoded per request, and the
 result must equal plain field-by-field marshalling with omitempty.

 encoding/json on arbitrary Go values is a parameter; its string encoder is
 spelled out, except for the bytes from 0x80 up (UTF-8 sequences), which are a
 parameter too.
 */
module PayloadWriter {
  import opened Text
  import opened Sorting

  /** What is not modelled of encoding/json: values, lists of values, and one UTF-8 sequence at the front of a text. */
  datatype Json<!V> = Json(
    value: V -> Option<string>,
    list: seq<V> -> Option<string>,
    rune: string -> string,
    width: string -> nat)

  // ----------------------------------------------------------------- strings

  /** One ASCII byte inside a JSON string, with HTML escaping on. */
  function EscapeByte(c: char): string
    requires c as int < 0x80
  {
    if c == '\"' || c == '\\' then ['\\', c]
    else if c as int == 8 then ['\\', 'b']
    else if c as int == 12 then ['\\', 'f']
    else if c == '\n' then ['\\', 'n']
    else if c == '\r' then ['\\', 'r']
    else if c == '\t' then ['\\', 't']
    else if c as int < 0x20 || c == '<' || c == '>' || c == '&' then
      ['\\', 'u', '0', '0', HexDigit(c as int / 16), HexDigit(c as int % 16)]
    else [c]
  }

  function EscapeText<V>(j: Json<V>, s: string): string
    decreases |s|
  {
    if |s| == 0 then ""
    else if s[0] as int < 0x80 then EscapeByte(s[0]) + EscapeText(j, s[1..])
    else
      var w := j.width(s);
      j.rune(s) + EscapeText(j, s[if 1 <= w <= |s| then w else 1..])
  }

  /** json.Marshal of a string. */
  function Quote<V>(j: Json<V>, s: string): string {
    ['\"'] + EscapeText(j, s) + ['\"']
  }

  predicate EscapedByte(c: char) {
    c as int < 0x20 || c as int >= 0x7f || c == '\"' || c == '\\' || c == '<' || c == '>' || c == '&'
  }

  predicate NeedsEscape(s: string) {
    exists i :: 0 <= i < |s| && EscapedByte(s[i])
  }

  method NeedsJSONStringEscape(s: string) returns (needs: bool)
    ensures needs == NeedsEscape(s)
  {
    for i := 0 to |s|
      invariant forall k :: 0 <= k < i ==> !EscapedByte(s[k])
    {
      if EscapedByte(s[i]) {
        return true;
      }
    }
    return false;
  }

  lemma {:induction false} PlainTextIsItself<V>(j: Json<V>, s: string)
    requires !NeedsEscape(s)
    ensures EscapeText(j, s) == s
  {
    if |s| > 0 {
      PlainHead(j, s);
      PlainTextIsItself(j, s[1..]);
      assert s == [s[0]] + s[1..];
    }
  }

  lemma PlainHead<V>(j: Json<V>, s: string)
    requires !NeedsEscape(s) && |s| > 0
    ensures EscapeText(j, s) == [s[0]] + EscapeText(j, s[1..]) && !NeedsEscape(s[1..])
  {
    assert !EscapedByte(s[0]);
    assert forall i :: 0 <= i < |s[1..]| ==> s[1..][i] == s[i + 1];
  }

  lemma {:induction false} EscapingGrows<V>(j: Json<V>, s: string)
    requires forall i :: 0 <= i < |s| ==> s[i] as int < 0x7f
    ensures |EscapeText(j, s)| >= |s|
    ensures NeedsEscape(s) ==> |EscapeText(j, s)| > |s|
  {
    if |s| > 0 {
      EscapingGrows(j, s[1..]);
      if NeedsEscape(s) && !EscapedByte(s[0]) {
        var i :| 0 <= i < |s| && EscapedByte(s[i]);
        assert s[1..][i - 1] == s[i];
      }
    }
  }

  /**
   The fast path is taken only on strings whose encoding is the string in quotes, and,
   among strings of bytes below 0x7f, on all of them (section 7 of RFC 8259).
   */
  lemma FastPathIsExact<V>(j: Json<V>, s: string)
    ensures !NeedsEscape(s) ==> Quote(j, s) == ['\"'] + s + ['\"']
    ensures (forall i :: 0 <= i < |s| ==> s[i] as int < 0x7f) && Quote(j, s) == ['\"'] + s + ['\"'] ==> !NeedsEscape(s)
  {
    if !NeedsEscape(s) {
      PlainTextIsItself(j, s);
    }
    if forall i :: 0 <= i < |s| ==> s[i] as int < 0x7f {
      EscapingGrows(j, s);
    }
  }

  method EncodeJSONString<V>(j: Json<V>, s: string) returns (text: string)
    ensures text == Quote(j, s)
  {
    var needs := NeedsJSONStringEscape(s);
    if !needs {
      FastPathIsExact(j, s);
      return ['\"'] + s + ['\"'];
    }
    return Quote(j, s);
  }

  // -------------------------------------------------------------------- maps

  /** `order` lists the keys of m, each once: one possible map iteration order. */
  ghost predicate Enumerates(order: seq<string>, m: map<string, string>) {
    multiset(order) == multiset(m.Keys)
  }

  function Member<V>(j: Json<V>, key: string, value: string): string {
    Quote(j, key) + ":" + Quote(j, value)
  }

  function Members<V>(j: Json<V>, m: map<string, string>, keys: seq<string>): seq<string>
    requires forall k :: k in keys ==> k in m
  {
    if |keys| == 0 then []
    else Members(j, m, keys[..|keys| - 1]) + [Member(j, keys[|keys| - 1], m[keys[|keys| - 1]])]
  }

  /** json.Marshal of a string map, given some enumeration of its keys. */
  function MapJson<V>(j: Json<V>, m: Option<map<string, string>>, order: seq<string>): string
    requires m.Some? ==> forall k :: k in SortStrings(order) ==> k in m.value
  {
    if m.None? then "null" else "{" + Join(Members(j, m.value, SortStrings(order)), ",") + "}"
  }

  lemma EnumerationSorts(m: map<string, string>, order: seq<string>)
    requires Enumerates(order, m)
    ensures forall k :: k in SortStrings(order) ==> k in m
    ensures forall k :: k in m ==> k in order
  {
    SortIsSorted(order);
    forall k | k in SortStrings(order)
      ensures k in m
    {
      assert k in multiset(SortStrings(order));
    }
    forall k | k in m
      ensures k in order
    {
      assert k in multiset(m.Keys);
    }
  }

  /** The text does not depend on the enumeration. */
  lemma MapJsonForgetsOrder<V>(j: Json<V>, m: map<string, string>, a: seq<string>, b: seq<string>)
    requires Enumerates(a, m) && Enumerates(b, m)
    ensures (forall k :: k in SortStrings(a) ==> k in m) && (forall k :: k in SortStrings(b) ==> k in m)
    ensures MapJson(j, Some(m), a) == MapJson(j, Some(m), b)
  {
    EnumerationSorts(m, a);
    EnumerationSorts(m, b);
    SortForgetsOrder(a, b);
  }

  /** encodeStringMap; `scan` and `collect` are the iteration orders of its two map loops. */
  method EncodeStringMap<V>(j: Json<V>, m: Option<map<string, string>>, scan: seq<string>, collect: seq<string>)
    returns (text: string)
    requires m.Some? ==> Enumerates(scan, m.value) && Enumerates(collect, m.value)
    ensures m.Some? ==> forall k :: k in SortStrings(collect) ==> k in m.value
    ensures text == MapJson(j, m, collect)
  {
    if m.None? {
      return "null";
    }
    EnumerationSorts(m.value, collect);
    EnumerationSorts(m.value, scan);
    if |m.value| == 0 {
      EmptyEnumeration(m.value, collect);
      return "{}";
    }
    var keys := SortStrings(collect);
    for i := 0 to |scan|
      invariant forall k :: 0 <= k < i ==> scan[k] in m.value && !NeedsEscape(scan[k]) && !NeedsEscape(m.value[scan[k]])
    {
      assert scan[i] in multiset(scan);
      var k := NeedsJSONStringEscape(scan[i]);
      var v := NeedsJSONStringEscape(m.value[scan[i]]);
      if k || v {
        return MapJson(j, m, collect);
      }
    }
    text := WriteMembers(j, m.value, keys);
  }

  lemma EmptyEnumeration(m: map<string, string>, order: seq<string>)
    requires Enumerates(order, m) && |m| == 0
    ensures SortStrings(order) == []
  {
    assert m.Keys == {};
    assert |multiset(order)| == |order| == 0;
  }

  function PlainMember(k: string, v: string): string {
    ['\"'] + k + ['\"', ':', '\"'] + v + ['\"']
  }

  lemma PlainMemberIsMember<V>(j: Json<V>, k: string, v: string)
    requires !NeedsEscape(k) && !NeedsEscape(v)
    ensures PlainMember(k, v) == Member(j, k, v)
  {
    FastPathIsExact(j, k);
    FastPathIsExact(j, v);
  }

  lemma MembersNext<V>(j: Json<V>, m: map<string, string>, keys: seq<string>, i: nat)
    requires i < |keys| && forall k :: k in keys ==> k in m
    ensures Join(Members(j, m, keys[..i + 1]), ",")
         == Join(Members(j, m, keys[..i]), ",") + (if i > 0 then "," else "") + Member(j, keys[i], m[keys[i]])
  {
    var e := Member(j, keys[i], m[keys[i]]);
    assert keys[..i + 1][..i] == keys[..i];
    assert Members(j, m, keys[..i + 1]) == Members(j, m, keys[..i]) + [e];
    if i > 0 {
      assert |Members(j, m, keys[..i])| > 0;
      JoinSnoc(Members(j, m, keys[..i]), e, ",");
    }
  }

  method WriteMembers<V>(j: Json<V>, m: map<string, string>, keys: seq<string>) returns (text: string)
    requires forall k :: k in keys ==> k in m && !NeedsEscape(k) && !NeedsEscape(m[k])
    ensures text == "{" + Join(Members(j, m, keys), ",") + "}"
  {
    var b := "";
    for i := 0 to |keys|
      invariant b == Join(Members(j, m, keys[..i]), ",")
    {
      var k := keys[i];
      PlainMemberIsMember(j, k, m[k]);
      MembersNext(j, m, keys, i);
      b := b + (if i > 0 then "," else "") + PlainMember(k, m[k]);
    }
    assert keys[..|keys|] == keys;
    text := "{" + b + "}";
  }

  // ------------------------------------------------------------- the document

  /** clientPayload; `order` is the key order a marshaller happens to walk `params` in. */
  datatype Payload<V> = Payload(
    routeId: string, data: V, layoutData: seq<V>, form: V, url: string,
    params: Option<map<string, string>>, status: int, pageError: Option<V>,
    manifest: seq<V>, deps: seq<V>, appVersion: string, csrfToken: string, versionPoll: Option<V>)

  function IntText(n: int): string {
    if n < 0 then "-" + Itoa(-n) else Itoa(n)
  }

  function PointerJson<V>(j: Json<V>, v: Option<V>): Option<string> {
    if v.None? then Some("null") else j.value(v.value)
  }

  /** One struct field: its JSON name, whether omitempty keeps it, and its encoding if that succeeds. */
  datatype Field = Field(name: string, kept: bool, text: Option<string>)

  function HeadFields<V>(j: Json<V>, p: Payload<V>): seq<Field> {
    [Field("routeId", true, Some(Quote(j, p.routeId))),
     Field("data", true, j.value(p.data)),
     Field("layoutData", |p.layoutData| > 0, j.list(p.layoutData)),
     Field("form", true, j.value(p.form))]
  }

  function MiddleFields<V>(j: Json<V>, p: Payload<V>, order: seq<string>): seq<Field>
    requires p.params.Some? ==> forall k :: k in SortStrings(order) ==> k in p.params.value
  {
    [Field("url", true, Some(Quote(j, p.url))),
     Field("params", true, Some(MapJson(j, p.params, order))),
     Field("status", true, Some(IntText(p.status))),
     Field("error", true, PointerJson(j, p.pageError))]
  }

  function TailFields<V>(j: Json<V>, p: Payload<V>): seq<Field> {
    [Field("manifest", |p.manifest| > 0, j.list(p.manifest)),
     Field("deps", |p.deps| > 0, j.list(p.deps)),
     Field("appVersion", p.appVersion != "", Some(Quote(j, p.appVersion))),
     Field("csrfToken", p.csrfToken != "", Some(Quote(j, p.csrfToken))),
     Field("versionPoll", p.versionPoll.Some?, PointerJson(j, p.versionPoll))]
  }

  function Entry(name: string, text: string): string {
    ['\"'] + name + ['\"', ':'] + text
  }

  /** The entries of the kept fields in order; nothing when a kept field fails to encode. */
  function Entries(fields: seq<Field>): Option<seq<string>> {
    if |fields| == 0 then Some([])
    else
      var f := fields[|fields| - 1];
      match Entries(fields[..|fields| - 1])
      case None => None
      case Some(es) =>
        if !f.kept then Some(es)
        else if f.text.None? then None
        else Some(es + [Entry(f.name, f.text.value)])
  }

  /** json.Marshal(p): all fields in declaration order, omitempty applied. */
  function MarshalPayload<V>(j: Json<V>, p: Payload<V>, order: seq<string>): Option<string>
    requires p.params.Some? ==> forall k :: k in SortStrings(order) ==> k in p.params.value
  {
    match Entries(HeadFields(j, p) + MiddleFields(j, p, order) + TailFields(j, p))
    case None => None
    case Some(es) => Some("{" + Join(es, ",") + "}")
  }

  // --------------------------------------------------------- the splice writer

  /** The parts of Server the writer uses: the values, and the bytes encoded once from them. */
  datatype Server<V> = Server(
    clientManifest: seq<V>, appVersion: string, poll: V,
    encodedManifest: string, encodedAppVersion: string, encodedVersionPoll: string,
    encodedRouteIDs: map<string, string>)

  /** encodePayloadField: the entry with its leading comma. */
  function EncodedField(name: string, text: string): string {
    "," + Entry(name, text)
  }

  /** encodeRouteIDs. */
  method EncodeRouteIDs<V>(j: Json<V>, patterns: seq<string>) returns (ids: map<string, string>)
    ensures ids.Keys == set k | k in patterns
    ensures forall k :: k in ids ==> ids[k] == Quote(j, k)
  {
    ids := map[];
    for i := 0 to |patterns|
      invariant ids.Keys == set k | k in patterns[..i]
      invariant forall k :: k in ids ==> ids[k] == Quote(j, k)
    {
      assert patterns[..i + 1] == patterns[..i] + [patterns[i]];
      if patterns[i] !in ids {
        ids := ids[patterns[i] := Quote(j, patterns[i])];
      }
    }
    assert patterns[..|patterns|] == patterns;
  }

  /** The pre-encoded bytes are the encodings of the server's own values. */
  ghost predicate Built<V>(j: Json<V>, s: Server<V>) {
    && j.list(s.clientManifest).Some?
    && s.encodedManifest == EncodedField("manifest", j.list(s.clientManifest).value)
    && s.encodedAppVersion == (if s.appVersion == "" then "" else EncodedField("appVersion", Quote(j, s.appVersion)))
    && (s.appVersion == "" ==> s.encodedVersionPoll == "")
    && (s.appVersion != "" ==>
          j.value(s.poll).Some? && s.encodedVersionPoll == EncodedField("versionPoll", j.value(s.poll).value))
    && forall k :: k in s.encodedRouteIDs ==> s.encodedRouteIDs[k] == Quote(j, k)
  }

  /** New, as far as the writer is concerned; a value that does not marshal panics there. */
  method NewServer<V>(j: Json<V>, manifest: seq<V>, appVersion: string, poll: V, patterns: seq<string>)
    returns (s: Option<Server<V>>)
    ensures s.Some? ==> Built(j, s.value) && s.value.clientManifest == manifest && s.value.appVersion == appVersion
    ensures s.None? <==> j.list(manifest).None? || (appVersion != "" && j.value(poll).None?)
  {
    if j.list(manifest).None? || (appVersion != "" && j.value(poll).None?) {
      return None;
    }
    var ids := EncodeRouteIDs(j, patterns);
    return Some(Server(
      manifest, appVersion, poll,
      EncodedField("manifest", j.list(manifest).value),
      if appVersion == "" then "" else EncodedField("appVersion", Quote(j, appVersion)),
      if appVersion == "" then "" else EncodedField("versionPoll", j.value(poll).value),
      ids));
  }

  datatype Form<V> = Form(data: V, code: int)

  /** buildClientPayload; `nil` is the nil interface. */
  function BuildClientPayload<V>(pattern: string, data: V, layoutDatas: seq<V>, params: Option<map<string, string>>,
                                 url: string, form: Option<Form<V>>, csrf: string, nil: V): Payload<V> {
    Payload(pattern, data, layoutDatas, if form.Some? then form.value.data else nil, url,
            if params.None? then Some(map[]) else params,
            if form.Some? && form.value.code != 0 then form.value.code else 200,
            None, [], [], "", csrf, None)
  }

  /** applyInitialPayloadFields. */
  function ApplyInitialFields<V>(s: Server<V>, p: Payload<V>): Payload<V> {
    var q := p.(manifest := s.clientManifest);
    if s.appVersion != "" then q.(appVersion := s.appVersion, versionPoll := Some(s.poll)) else q
  }

  /** Where the writer would splice, the spliced bytes are those of the payload's own value. */
  ghost predicate SpliceAgrees<V>(j: Json<V>, s: Server<V>, p: Payload<V>) {
    && (p.routeId in s.encodedRouteIDs ==> s.encodedRouteIDs[p.routeId] == Quote(j, p.routeId))
    && (|p.manifest| > 0 && s.encodedManifest != "" ==>
          j.list(p.manifest).Some? && s.encodedManifest == EncodedField("manifest", j.list(p.manifest).value))
    && (p.appVersion != "" && s.encodedAppVersion != "" ==>
          s.encodedAppVersion == EncodedField("appVersion", Quote(j, p.appVersion)))
    && (p.versionPoll.Some? && s.encodedVersionPoll != "" ==>
          && j.value(p.versionPoll.value).Some?
          && s.encodedVersionPoll == EncodedField("versionPoll", j.value(p.versionPoll.value).value))
  }

  /** Every payload the pipeline builds, initial render or __data.json, with any deps, agrees with its server. */
  lemma PipelinePayloadsAgree<V>(j: Json<V>, s: Server<V>, pattern: string, data: V, layoutDatas: seq<V>,
                                 params: Option<map<string, string>>, url: string, form: Option<Form<V>>,
                                 csrf: string, nil: V, initial: bool, deps: seq<V>)
    requires Built(j, s)
    ensures var p := BuildClientPayload(pattern, data, layoutDatas, params, url, form, csrf, nil);
      SpliceAgrees(j, s, (if initial then ApplyInitialFields(s, p) else p).(deps := deps))
  {
  }

  /** A document under construction: the brace and the entries so far. */
  function Doc(es: seq<string>): string {
    "{" + Join(es, ",")
  }

  lemma DocNext(es: seq<string>, e: string)
    requires |es| > 0
    ensures Doc(es + [e]) == Doc(es) + ("," + e)
  {
    JoinSnoc(es, e, ",");
  }

  /** `dst` holds exactly the document for the fields so far, or has failed like marshalling them would. */
  ghost predicate Tracks(dst: Option<string>, fields: seq<Field>) {
    match Entries(fields)
    case None => dst == None
    case Some(es) => |es| > 0 && dst == Some(Doc(es))
  }

  /** One field written per request: skipped, failed, or appended after a comma. */
  method Put(dst: Option<string>, ghost fields: seq<Field>, name: string, kept: bool, text: Option<string>)
    returns (r: Option<string>)
    requires Tracks(dst, fields)
    ensures Tracks(r, fields + [Field(name, kept, text)])
  {
    EntriesSnoc(fields, Field(name, kept, text));
    if dst.None? || !kept {
      return dst;
    }
    if text.None? {
      return None;
    }
    DocNext(Entries(fields).value, Entry(name, text.value));
    return Some(dst.value + EncodedField(name, text.value));
  }

  /** One stable field: spliced from pre-encoded bytes when there are any. */
  method Splice(dst: Option<string>, ghost fields: seq<Field>, encoded: string,
                name: string, kept: bool, text: Option<string>)
    returns (r: Option<string>)
    requires Tracks(dst, fields)
    requires kept && encoded != "" ==> text.Some? && encoded == EncodedField(name, text.value)
    ensures Tracks(r, fields + [Field(name, kept, text)])
  {
    if dst.Some? && kept && |encoded| > 0 {
      EntriesSnoc(fields, Field(name, kept, text));
      DocNext(Entries(fields).value, Entry(name, text.value));
      return Some(dst.value + encoded);
    }
    r := Put(dst, fields, name, kept, text);
  }

  lemma EntriesSnoc(fields: seq<Field>, f: Field)
    ensures Entries(fields + [f]) ==
      if Entries(fields).None? || !f.kept then Entries(fields)
      else if f.text.None? then None
      else Some(Entries(fields).value + [Entry(f.name, f.text.value)])
  {
  }

  method WriteRouteID<V>(j: Json<V>, s: Server<V>, p: Payload<V>) returns (dst: Option<string>)
    requires SpliceAgrees(j, s, p)
    ensures Tracks(dst, [Field("routeId", true, Some(Quote(j, p.routeId)))])
  {
    var id := if p.routeId in s.encodedRouteIDs then s.encodedRouteIDs[p.routeId] else "";
    if |id| == 0 {
      id := Quote(j, p.routeId);
    }
    EntriesSnoc([], Field("routeId", true, Some(id)));
    assert [] + [Field("routeId", true, Some(id))] == [Field("routeId", true, Some(id))];
    assert Join([Entry("routeId", id)], ",") == Entry("routeId", id);
    return Some("{" + Entry("routeId", id));
  }

  /** The first fields, up to form. */
  method WriteHead<V>(j: Json<V>, s: Server<V>, p: Payload<V>) returns (dst: Option<string>)
    requires SpliceAgrees(j, s, p)
    ensures Tracks(dst, HeadFields(j, p))
  {
    ghost var f0 := Field("routeId", true, Some(Quote(j, p.routeId)));
    ghost var f1 := Field("data", true, j.value(p.data));
    ghost var f2 := Field("layoutData", |p.layoutData| > 0, j.list(p.layoutData));
    dst := WriteRouteID(j, s, p);
    dst := Put(dst, [f0], "data", true, j.value(p.data));
    dst := Put(dst, [f0] + [f1], "layoutData", |p.layoutData| > 0, j.list(p.layoutData));
    dst := Put(dst, [f0] + [f1] + [f2], "form", true, j.value(p.form));
    assert [f0] + [f1] + [f2] + [Field("form", true, j.value(p.form))] == HeadFields(j, p);
  }

  /** The fields from url to error. */
  method WriteMiddle<V>(j: Json<V>, p: Payload<V>, scan: seq<string>, collect: seq<string>,
                        dst0: Option<string>, ghost fields: seq<Field>)
    returns (dst: Option<string>)
    requires Tracks(dst0, fields)
    requires p.params.Some? ==> Enumerates(scan, p.params.value) && Enumerates(collect, p.params.value)
    ensures p.params.Some? ==> forall k :: k in SortStrings(collect) ==> k in p.params.value
    ensures Tracks(dst, fields + MiddleFields(j, p, collect))
  {
    var url := EncodeJSONString(j, p.url);
    var params := EncodeStringMap(j, p.params, scan, collect);
    ghost var f0 := Field("url", true, Some(url));
    ghost var f1 := Field("params", true, Some(params));
    ghost var f2 := Field("status", true, Some(IntText(p.status)));
    dst := Put(dst0, fields, "url", true, Some(url));
    dst := Put(dst, fields + [f0], "params", true, Some(params));
    dst := Put(dst, fields + [f0] + [f1], "status", true, Some(IntText(p.status)));
    dst := Put(dst, fields + [f0] + [f1] + [f2], "error", true, PointerJson(j, p.pageError));
    FourFields(fields, f0, f1, f2, Field("error", true, PointerJson(j, p.pageError)));
  }

  lemma FourFields(fields: seq<Field>, a: Field, b: Field, c: Field, d: Field)
    ensures fields + [a] + [b] + [c] + [d] == fields + [a, b, c, d]
  {
  }

  /** writePayloadJSON; `scan` and `collect` are the iteration orders of the params map. */
  method WritePayloadJSON<V>(j: Json<V>, s: Server<V>, p: Payload<V>, scan: seq<string>, collect: seq<string>)
    returns (doc: Option<string>)
    requires SpliceAgrees(j, s, p)
    requires p.params.Some? ==> Enumerates(scan, p.params.value) && Enumerates(collect, p.params.value)
    ensures p.params.Some? ==> forall k :: k in SortStrings(collect) ==> k in p.params.value
    ensures doc == MarshalPayload(j, p, collect)
  {
    var dst := WriteHead(j, s, p);
    dst := WriteMiddle(j, p, scan, collect, dst, HeadFields(j, p));
    dst := WriteStable(j, s, p, dst, HeadFields(j, p) + MiddleFields(j, p, collect));
    doc := if dst.None? then None else Some(dst.value + "}");
  }

  /** The omitempty fields at the end, three of them spliced. */
  method WriteStable<V>(j: Json<V>, s: Server<V>, p: Payload<V>, dst0: Option<string>, ghost fields: seq<Field>)
    returns (dst: Option<string>)
    requires SpliceAgrees(j, s, p) && Tracks(dst0, fields)
    ensures Tracks(dst, fields + TailFields(j, p))
  {
    ghost var f0 := Field("manifest", |p.manifest| > 0, j.list(p.manifest));
    ghost var f1 := Field("deps", |p.deps| > 0, j.list(p.deps));
    dst := Splice(dst0, fields, s.encodedManifest, "manifest", |p.manifest| > 0, j.list(p.manifest));
    dst := Put(dst, fields + [f0], "deps", |p.deps| > 0, j.list(p.deps));
    var version := EncodeJSONString(j, p.appVersion);
    ghost var f2 := Field("appVersion", p.appVersion != "", Some(version));
    dst := Splice(dst, fields + [f0] + [f1], s.encodedAppVersion, "appVersion", p.appVersion != "", Some(version));
    dst := WriteLast(j, s, p, dst, fields + [f0] + [f1] + [f2]);
    TailGrouped(fields, f0, f1, f2, LastFields(j, p));
    assert TailFields(j, p) == [f0, f1, f2] + LastFields(j, p);
  }

  lemma TailGrouped(fields: seq<Field>, a: Field, b: Field, c: Field, rest: seq<Field>)
    ensures fields + [a] + [b] + [c] + rest == fields + ([a, b, c] + rest)
  {
  }

  function LastFields<V>(j: Json<V>, p: Payload<V>): seq<Field> {
    [Field("csrfToken", p.csrfToken != "", Some(Quote(j, p.csrfToken))),
     Field("versionPoll", p.versionPoll.Some?, PointerJson(j, p.versionPoll))]
  }

  method WriteLast<V>(j: Json<V>, s: Server<V>, p: Payload<V>, dst0: Option<string>, ghost fields: seq<Field>)
    returns (dst: Option<string>)
    requires SpliceAgrees(j, s, p) && Tracks(dst0, fields)
    ensures Tracks(dst, fields + LastFields(j, p))
  {
    var token := EncodeJSONString(j, p.csrfToken);
    ghost var f := Field("csrfToken", p.csrfToken != "", Some(token));
    dst := Put(dst0, fields, "csrfToken", p.csrfToken != "", Some(token));
    dst := Splice(dst, fields + [f], s.encodedVersionPoll, "versionPoll", p.versionPoll.Some?,
                  PointerJson(j, p.versionPoll));
    assert fields + [f] + [LastFields(j, p)[1]] == fields + LastFields(j, p);
  }
}
