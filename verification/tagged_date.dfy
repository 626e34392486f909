/**
 * The tagged-JSON text of a date, as the date encoder writes it and the date
 * decoder reads it back.
 *
 * A date is encoded as one of three shapes: an object with a `#class` tag and a
 * `#value` payload, an object with only the `#value` payload, or the bare
 * quoted timestamp. The timestamp is the canonical `yyyy-MM-dd HH:mm:ss` text
 * and is treated as an opaque string; calendars are not modelled. The class
 * tag is likewise opaque text, and turning a tag back into a date class is the
 * host's class registry, passed in as `resolve`.
 */
module TaggedDate {
  import opened Wrappers

  /** `java.util.Date` or its subclass `java.sql.Date`. */
  datatype DateKind = UtilDate | SqlDate

  /** The encoder features that affect a date's text. */
  datatype Feature = UseSingleQuote | UnMarkClassFlag

  /** A decoded date: its class and its timestamp text. */
  datatype DateValue = DateValue(kind: DateKind, stamp: string)

  /** The three textual shapes of a date. */
  datatype Shape =
    | Tagged(classTag: string, stamp: string)  // {#class:'…',#value:'…'}
    | ValueOnly(stamp: string)                 // {#value:'…'}
    | Bare(stamp: string)                      // '…'

  /** Quote character for strings, and whether object keys are quoted too. */
  datatype Style = Style(quote: char, quoteKeys: bool)

  /** Why a text is not an acceptable date. */
  datatype DateError =
    | Malformed                       // not one of the accepted texts
    | MissingValue                    // an object without `#value`
    | NoTarget                        // an untagged date with no declared target class
    | UnknownClassTag(tag: string)    // a `#class` the registry does not map to a date class

  const ClassKey: string := "#class"
  const ValueKey: string := "#value"

  // ---------------------------------------------------------------------------
  // Encoding

  /**
   * The shape the encoder chooses. The class tag is written unless
   * `UnMarkClassFlag` is set; without it, only a plain `java.util.Date` may
   * drop the wrapper, because a subclass could not be told apart on the way
   * back.
   */
  function ShapeFor(kind: DateKind, classTag: string, stamp: string, features: set<Feature>): (sh: Shape)
    ensures sh.stamp == stamp
    ensures sh.Tagged? <==> UnMarkClassFlag !in features
    ensures sh.Tagged? ==> sh.classTag == classTag
    ensures sh.Bare? <==> UnMarkClassFlag in features && kind == UtilDate
  {
    if UnMarkClassFlag !in features then Tagged(classTag, stamp)
    else if kind == UtilDate then Bare(stamp)
    else ValueOnly(stamp)
  }

  /**
   * Single-quote mode writes single-quoted strings and bare keys; otherwise
   * strings and keys are double-quoted as in standard JSON.
   */
  function StyleFor(features: set<Feature>): (st: Style)
    ensures IsQuote(st.quote)
    ensures st.quote == '\'' <==> UseSingleQuote in features
    ensures st.quoteKeys <==> UseSingleQuote !in features
  {
    if UseSingleQuote in features then Style('\'', false) else Style('"', true)
  }

  function Quote(q: char, s: string): string
  {
    [q] + s + [q]
  }

  function RenderKey(st: Style, key: string): string
  {
    if st.quoteKeys then Quote(st.quote, key) else key
  }

  function RenderField(st: Style, key: string, value: string): string
  {
    RenderKey(st, key) + ":" + Quote(st.quote, value)
  }

  function Render(sh: Shape, st: Style): string
  {
    match sh
    case Tagged(tag, stamp) => "{" + RenderField(st, ClassKey, tag) + "," + RenderField(st, ValueKey, stamp) + "}"
    case ValueOnly(stamp) => "{" + RenderField(st, ValueKey, stamp) + "}"
    case Bare(stamp) => Quote(st.quote, stamp)
  }

  /**
   * The date encoder: the text of a date of class `kind`, whose class tag is
   * `classTag` and whose canonical timestamp is `stamp`.
   */
  function Encode(kind: DateKind, classTag: string, stamp: string, features: set<Feature>): (text: string)
    ensures UseSingleQuote in features && UnMarkClassFlag !in features ==>
              text == "{#class:'" + classTag + "',#value:'" + stamp + "'}"
    ensures UseSingleQuote in features && UnMarkClassFlag in features && kind == UtilDate ==>
              text == "'" + stamp + "'"
    ensures UseSingleQuote in features && UnMarkClassFlag in features && kind == SqlDate ==>
              text == "{#value:'" + stamp + "'}"
  {
    Render(ShapeFor(kind, classTag, stamp, features), StyleFor(features))
  }

  // ---------------------------------------------------------------------------
  // Reading the text back

  /** A parsed value: a string, or an object as its ordered key/value pairs. */
  datatype Node = StrNode(text: string) | ObjNode(fields: seq<(string, string)>)

  predicate IsQuote(c: char)
  {
    c == '\'' || c == '"'
  }

  /** A character an unquoted key may contain. */
  predicate IsKeyChar(c: char)
  {
    ('a' <= c <= 'z') || ('A' <= c <= 'Z') || ('0' <= c <= '9') || c == '_' || c == '$' || c == '#'
  }

  /** Splits `s` at the first `stop`: the text before it and the text after it. */
  function TakeUntil(s: string, stop: char): (r: Option<(string, string)>)
    ensures r.Some? ==> stop !in r.value.0 && s == r.value.0 + [stop] + r.value.1
    ensures r.None? ==> stop !in s
    decreases |s|
  {
    if |s| == 0 then None
    else if s[0] == stop then Some(([], s[1..]))
    else match TakeUntil(s[1..], stop)
      case None => None
      case Some((before, after)) => Some(([s[0]] + before, after))
  }

  /** A quoted string at the start of `s`: its content and what follows the closing quote. */
  function ScanString(s: string): (r: Option<(string, string)>)
    ensures r.Some? ==> |r.value.1| < |s|
  {
    if |s| > 0 && IsQuote(s[0]) then TakeUntil(s[1..], s[0]) else None
  }

  /** A key, quoted or bare, and its colon: the key and what follows the colon. */
  function ScanKey(s: string): (r: Option<(string, string)>)
    ensures r.Some? ==> |r.value.1| < |s|
  {
    if |s| > 0 && IsQuote(s[0]) then
      match ScanString(s)
      case None => None
      case Some((key, rest)) => if |rest| > 0 && rest[0] == ':' then Some((key, rest[1..])) else None
    else
      match TakeUntil(s, ':')
      case None => None
      case Some((key, rest)) =>
        if |key| > 0 && forall k :: 0 <= k < |key| ==> IsKeyChar(key[k]) then Some((key, rest)) else None
  }

  /** The members of an object after its `{`, through its `}`: the pairs and what follows. */
  function ScanMembers(s: string): (r: Option<(seq<(string, string)>, string)>)
    decreases |s|
  {
    match ScanKey(s)
    case None => None
    case Some((key, afterKey)) =>
      match ScanString(afterKey)
      case None => None
      case Some((value, rest)) =>
        if |rest| > 0 && rest[0] == '}' then Some(([(key, value)], rest[1..]))
        else if |rest| > 0 && rest[0] == ',' then
          match ScanMembers(rest[1..])
          case None => None
          case Some((more, tail)) => Some(([(key, value)] + more, tail))
        else None
  }

  /** The whole text as one string or one object, with nothing after it. */
  function Parse(text: string): Option<Node>
  {
    if |text| > 0 && text[0] == '{' then
      match ScanMembers(text[1..])
      case Some((fields, tail)) => if tail == [] then Some(ObjNode(fields)) else None
      case None => None
    else
      match ScanString(text)
      case Some((content, tail)) => if tail == [] then Some(StrNode(content)) else None
      case None => None
  }

  /** The value of the last field named `key`, as a map built from the fields would hold it. */
  function Lookup(fields: seq<(string, string)>, key: string): (r: Option<string>)
    ensures r.Some? ==>
              exists k :: 0 <= k < |fields| && fields[k] == (key, r.value) &&
                forall j :: k < j < |fields| ==> fields[j].0 != key
    ensures r.None? ==> forall k :: 0 <= k < |fields| ==> fields[k].0 != key
    decreases |fields|
  {
    if |fields| == 0 then None
    else match Lookup(fields[1..], key)
      case Some(v) =>
        var k :| 0 <= k < |fields[1..]| && fields[1..][k] == (key, v) &&
                 forall j :: k < j < |fields[1..]| ==> fields[1..][j].0 != key;
        assert fields[k + 1] == (key, v);
        assert forall j :: k + 1 < j < |fields| ==> fields[j] == fields[1..][j - 1];
        Some(v)
      case None => if fields[0].0 == key then Some(fields[0].1) else None
  }

  /** Which date shape a parsed node is, if any. */
  function Recognise(node: Node): (r: Result<Shape, DateError>)
  {
    match node
    case StrNode(text) => Success(Bare(text))
    case ObjNode(fields) =>
      match Lookup(fields, ValueKey)
      case None => Failure(MissingValue)
      case Some(stamp) =>
        match Lookup(fields, ClassKey)
        case Some(tag) => Success(Tagged(tag, stamp))
        case None => Success(ValueOnly(stamp))
  }

  /**
   * The date decoder: a tagged date takes its class from the tag; an untagged
   * one (bare or `#value` only) takes the declared target class.
   */
  function Decode(text: string, declared: Option<DateKind>, resolve: string -> Option<DateKind>)
    : (r: Result<DateValue, DateError>)
    ensures r.Success? ==> Parse(text).Some? && Recognise(Parse(text).value).Success?
    ensures r.Success? ==> r.value.stamp == Recognise(Parse(text).value).value.stamp
    ensures r.Success? && !Recognise(Parse(text).value).value.Tagged? ==> declared == Some(r.value.kind)
    ensures r.Success? && Recognise(Parse(text).value).value.Tagged? ==>
              resolve(Recognise(Parse(text).value).value.classTag) == Some(r.value.kind)
  {
    match Parse(text)
    case None => Failure(Malformed)
    case Some(node) =>
      var shape :- Recognise(node);
      match shape
      case Tagged(tag, stamp) =>
        (match resolve(tag)
         case None => Failure(UnknownClassTag(tag))
         case Some(kind) => Success(DateValue(kind, stamp)))
      case _ =>
        (match declared
         case None => Failure(NoTarget)
         case Some(kind) => Success(DateValue(kind, shape.stamp)))
  }

  // ---------------------------------------------------------------------------
  // Round trip

  lemma {:induction false} TakeUntilFindsStop(a: string, stop: char, b: string)
    requires stop !in a
    ensures TakeUntil(a + [stop] + b, stop) == Some((a, b))
    decreases |a|
  {
    var s := a + [stop] + b;
    if |a| == 0 {
      assert s == [stop] + b;
      assert s[1..] == b;
    } else {
      assert s[0] == a[0];
      assert s[1..] == a[1..] + [stop] + b;
      TakeUntilFindsStop(a[1..], stop, b);
      assert [a[0]] + a[1..] == a;
    }
  }

  lemma ScanQuoted(q: char, v: string, rest: string)
    requires IsQuote(q) && q !in v
    ensures ScanString(Quote(q, v) + rest) == Some((v, rest))
  {
    var s := Quote(q, v) + rest;
    assert s[0] == q;
    assert s[1..] == v + [q] + rest;
    TakeUntilFindsStop(v, q, rest);
  }

  lemma ScanRenderedKey(st: Style, key: string, rest: string)
    requires IsQuote(st.quote)
    requires key == ClassKey || key == ValueKey
    ensures ScanKey(RenderKey(st, key) + ":" + rest) == Some((key, rest))
  {
    var s := RenderKey(st, key) + ":" + rest;
    assert st.quote !in key;
    if st.quoteKeys {
      assert s == Quote(st.quote, key) + (":" + rest);
      ScanQuoted(st.quote, key, ":" + rest);
    } else {
      assert ':' !in key;
      assert s == key + [':'] + rest;
      TakeUntilFindsStop(key, ':', rest);
      assert forall k :: 0 <= k < |key| ==> IsKeyChar(key[k]);
    }
  }

  lemma ScanRenderedField(st: Style, key: string, value: string, rest: string)
    requires IsQuote(st.quote) && st.quote !in value
    requires key == ClassKey || key == ValueKey
    ensures ScanKey(RenderField(st, key, value) + rest) == Some((key, Quote(st.quote, value) + rest))
    ensures ScanString(Quote(st.quote, value) + rest) == Some((value, rest))
  {
    assert RenderField(st, key, value) + rest == RenderKey(st, key) + ":" + (Quote(st.quote, value) + rest);
    ScanRenderedKey(st, key, Quote(st.quote, value) + rest);
    ScanQuoted(st.quote, value, rest);
  }

  /** The last member of an object closes it. */
  lemma ScanLastMember(st: Style, key: string, value: string)
    requires IsQuote(st.quote) && st.quote !in value
    requires key == ClassKey || key == ValueKey
    ensures ScanMembers(RenderField(st, key, value) + "}") == Some(([(key, value)], ""))
  {
    ScanRenderedField(st, key, value, "}");
    assert "}"[1..] == "";
  }

  /** A member followed by a comma is followed by the remaining members. */
  lemma ScanLeadingMember(st: Style, key: string, value: string, rest: string)
    requires IsQuote(st.quote) && st.quote !in value
    requires key == ClassKey || key == ValueKey
    requires ScanMembers(rest).Some?
    ensures ScanMembers(RenderField(st, key, value) + "," + rest)
              == Some(([(key, value)] + ScanMembers(rest).value.0, ScanMembers(rest).value.1))
  {
    assert RenderField(st, key, value) + "," + rest == RenderField(st, key, value) + ("," + rest);
    ScanRenderedField(st, key, value, "," + rest);
    assert ("," + rest)[1..] == rest;
  }

  /** A shape rendered in either style is read back as the same shape. */
  lemma ParseRender(sh: Shape, st: Style)
    requires IsQuote(st.quote)
    requires st.quote !in sh.stamp
    requires sh.Tagged? ==> st.quote !in sh.classTag
    ensures Parse(Render(sh, st)).Some?
    ensures Recognise(Parse(Render(sh, st)).value) == Success(sh)
  {
    match sh
    case Bare(stamp) => ParseRenderBare(stamp, st);
    case ValueOnly(stamp) => ParseRenderValueOnly(stamp, st);
    case Tagged(tag, stamp) =>
      ParseRenderTagged(tag, stamp, st);
      RecogniseTagged(tag, stamp);
  }

  lemma ParseRenderBare(stamp: string, st: Style)
    requires IsQuote(st.quote) && st.quote !in stamp
    ensures Parse(Render(Bare(stamp), st)) == Some(StrNode(stamp))
  {
    var text := Render(Bare(stamp), st);
    assert text == Quote(st.quote, stamp) + [];
    ScanQuoted(st.quote, stamp, []);
  }

  lemma ParseRenderValueOnly(stamp: string, st: Style)
    requires IsQuote(st.quote) && st.quote !in stamp
    ensures Parse(Render(ValueOnly(stamp), st)) == Some(ObjNode([(ValueKey, stamp)]))
    ensures Recognise(ObjNode([(ValueKey, stamp)])) == Success(ValueOnly(stamp))
  {
    var text := Render(ValueOnly(stamp), st);
    assert text[1..] == RenderField(st, ValueKey, stamp) + "}";
    ScanLastMember(st, ValueKey, stamp);
    assert Lookup([(ValueKey, stamp)], ClassKey) == None;
  }

  lemma ParseRenderTagged(tag: string, stamp: string, st: Style)
    requires IsQuote(st.quote) && st.quote !in stamp && st.quote !in tag
    ensures Parse(Render(Tagged(tag, stamp), st)) == Some(ObjNode([(ClassKey, tag), (ValueKey, stamp)]))
  {
    var text := Render(Tagged(tag, stamp), st);
    var second := RenderField(st, ValueKey, stamp) + "}";
    assert text[1..] == RenderField(st, ClassKey, tag) + "," + second;
    ScanLastMember(st, ValueKey, stamp);
    ScanLeadingMember(st, ClassKey, tag, second);
    assert [(ClassKey, tag)] + [(ValueKey, stamp)] == [(ClassKey, tag), (ValueKey, stamp)];
  }

  lemma RecogniseTagged(tag: string, stamp: string)
    ensures Recognise(ObjNode([(ClassKey, tag), (ValueKey, stamp)])) == Success(Tagged(tag, stamp))
  {
    var fields := [(ClassKey, tag), (ValueKey, stamp)];
    assert fields[1..] == [(ValueKey, stamp)];
    assert Lookup(fields, ValueKey) == Some(stamp);
    assert Lookup(fields, ClassKey) == Some(tag);
  }

  /**
   * Decoding what the encoder wrote, with the date's own class declared as the
   * target and a registry that maps the tag to that class, gives back the
   * same class and the same timestamp, whatever the features.
   */
  lemma EncodeDecodeRoundTrip(kind: DateKind, classTag: string, stamp: string, features: set<Feature>,
                              resolve: string -> Option<DateKind>)
    requires resolve(classTag) == Some(kind)
    requires StyleFor(features).quote !in stamp && StyleFor(features).quote !in classTag
    ensures Decode(Encode(kind, classTag, stamp, features), Some(kind), resolve) == Success(DateValue(kind, stamp))
  {
    ParseRender(ShapeFor(kind, classTag, stamp, features), StyleFor(features));
  }

  /**
   * With the class tag written, the text alone identifies the date: no
   * declared target is needed.
   */
  lemma TaggedNeedsNoTarget(kind: DateKind, classTag: string, stamp: string, features: set<Feature>,
                            resolve: string -> Option<DateKind>)
    requires UnMarkClassFlag !in features
    requires resolve(classTag) == Some(kind)
    requires StyleFor(features).quote !in stamp && StyleFor(features).quote !in classTag
    ensures Decode(Encode(kind, classTag, stamp, features), None, resolve) == Success(DateValue(kind, stamp))
  {
    ParseRender(ShapeFor(kind, classTag, stamp, features), StyleFor(features));
  }

  /** Without the tag, and without a declared target, the text cannot be decoded. */
  lemma UntaggedNeedsTarget(kind: DateKind, classTag: string, stamp: string, features: set<Feature>,
                            resolve: string -> Option<DateKind>)
    requires UnMarkClassFlag in features
    requires StyleFor(features).quote !in stamp
    ensures Decode(Encode(kind, classTag, stamp, features), None, resolve) == Failure(NoTarget)
  {
    ParseRender(ShapeFor(kind, classTag, stamp, features), StyleFor(features));
  }

  // ---------------------------------------------------------------------------
  // The expectations of the encoder and decoder tests

  const SampleStamp: string := "2011-08-01 08:11:41"

  /** The registry entries for the two date classes. */
  function HostDateClass(name: string): Option<DateKind>
  {
    if name == "java.util.Date" then Some(UtilDate)
    else if name == "java.sql.Date" then Some(SqlDate)
    else None
  }

  /** Single quotes, class tag kept: `{#class:'Date',#value:'…'}`. */
  lemma EncodeUtilDateTagged()
    ensures Encode(UtilDate, "Date", SampleStamp, {UseSingleQuote})
              == "{#class:'Date',#value:'2011-08-01 08:11:41'}"
  {
    UtilTagLiteral1();
    UtilTagLiteral2();
    UtilTagLiteral3();
    UtilTagLiteral4();
  }

  /** Single quotes, class tag dropped: the bare timestamp. */
  lemma EncodeUtilDateUnmarked()
    ensures Encode(UtilDate, "Date", SampleStamp, {UseSingleQuote, UnMarkClassFlag})
              == "'2011-08-01 08:11:41'"
  {
  }

  /** A `java.sql.Date` keeps its own class tag text. */
  lemma EncodeSqlDateTagged()
    ensures Encode(SqlDate, "java.sql.Date@82ae8779", SampleStamp, {UseSingleQuote})
              == "{#class:'java.sql.Date@82ae8779',#value:'2011-08-01 08:11:41'}"
  {
    SqlTagLiteral1();
    SqlTagLiteral2();
    SqlTagLiteral3();
    SqlTagLiteral4();
  }

  /** A `java.sql.Date` without its tag keeps the `#value` wrapper. */
  lemma EncodeSqlDateUnmarked()
    ensures Encode(SqlDate, "java.sql.Date@82ae8779", SampleStamp, {UseSingleQuote, UnMarkClassFlag})
              == "{#value:'2011-08-01 08:11:41'}"
  {
  }

  /** The decoder tests write single quotes and quoted keys. */
  const TestStyle: Style := Style('\'', true)

  lemma ClassKeyText()
    ensures RenderKey(TestStyle, ClassKey) + ":" == "'#class':"
  {
    assert RenderKey(TestStyle, ClassKey) == "'#class'";
  }

  lemma ValueKeyText()
    ensures RenderKey(TestStyle, ValueKey) + ":" == "'#value':"
  {
    assert RenderKey(TestStyle, ValueKey) == "'#value'";
  }

  lemma StampText()
    ensures Quote('\'', SampleStamp) == "'2011-08-01 08:11:41'"
  {
  }

  lemma ValueFieldText()
    ensures RenderField(TestStyle, ValueKey, SampleStamp) == "'#value':'2011-08-01 08:11:41'"
  {
    ValueKeyText();
    StampText();
  }

  /** The decoder tests' tagged text, given the text of its class field. */
  lemma TaggedText(tag: string, classField: string)
    requires RenderField(TestStyle, ClassKey, tag) == classField
    ensures Render(Tagged(tag, SampleStamp), TestStyle)
              == "{" + classField + "," + "'#value':'2011-08-01 08:11:41'" + "}"
  {
    ValueFieldText();
  }

  lemma UtilDateClassField()
    ensures RenderField(TestStyle, ClassKey, "java.util.Date") == "'#class':'java.util.Date'"
  {
    ClassKeyText();
    assert Quote('\'', "java.util.Date") == "'java.util.Date'";
  }

  lemma SqlDateClassField()
    ensures RenderField(TestStyle, ClassKey, "java.sql.Date") == "'#class':'java.sql.Date'"
  {
    ClassKeyText();
    assert Quote('\'', "java.sql.Date") == "'java.sql.Date'";
  }

  lemma TaggedUtilDateText()
    ensures Render(Tagged("java.util.Date", SampleStamp), TestStyle)
              == "{'#class':'java.util.Date','#value':'2011-08-01 08:11:41'}"
  {
    TaggedUtilDateLiteral1();
    TaggedUtilDateLiteral2();
    TaggedUtilDateLiteral3();
    TaggedUtilDateLiteral4();
    UtilDateClassField();
    TaggedText("java.util.Date", "'#class':'java.util.Date'");
  }

  lemma TaggedSqlDateText()
    ensures Render(Tagged("java.sql.Date", SampleStamp), TestStyle)
              == "{'#class':'java.sql.Date','#value':'2011-08-01 08:11:41'}"
  {
    TaggedSqlDateLiteral1();
    TaggedSqlDateLiteral2();
    TaggedSqlDateLiteral3();
    TaggedSqlDateLiteral4();
    SqlDateClassField();
    TaggedText("java.sql.Date", "'#class':'java.sql.Date'");
  }

  lemma ValueOnlyText()
    ensures Render(ValueOnly(SampleStamp), TestStyle) == "{'#value':'2011-08-01 08:11:41'}"
  {
    ValueFieldText();
    ValueOnlyLiteral1();
    ValueOnlyLiteral2();
  }

  lemma BareText()
    ensures Render(Bare(SampleStamp), TestStyle) == "'2011-08-01 08:11:41'"
  {
    StampText();
  }

  /** Neither the sample timestamp nor the two class names contain a single quote. */
  lemma SampleTextsHaveNoQuote()
    ensures '\'' !in SampleStamp
    ensures '\'' !in "java.util.Date" && '\'' !in "java.sql.Date"
  {
  }

  lemma HostDateClassEntries()
    ensures HostDateClass("java.util.Date") == Some(UtilDate)
    ensures HostDateClass("java.sql.Date") == Some(SqlDate)
  {
  }

  /** `{'#class':'java.util.Date','#value':'…'}` decodes to a `java.util.Date` without a declared target. */
  lemma DecodeTaggedUtilDate()
    ensures Decode("{'#class':'java.util.Date','#value':'2011-08-01 08:11:41'}", None, HostDateClass)
              == Success(DateValue(UtilDate, SampleStamp))
  {
    SampleTextsHaveNoQuote();
    HostDateClassEntries();
    TaggedUtilDateText();
    ParseRender(Tagged("java.util.Date", SampleStamp), TestStyle);
  }

  /** The bare `'…'` decodes to a `java.util.Date` when that is the declared target. */
  lemma DecodeBareUtilDate()
    ensures Decode("'2011-08-01 08:11:41'", Some(UtilDate), HostDateClass)
              == Success(DateValue(UtilDate, SampleStamp))
  {
    SampleTextsHaveNoQuote();
    BareText();
    ParseRender(Bare(SampleStamp), TestStyle);
  }

  /** `{'#class':'java.sql.Date','#value':'…'}` decodes to a `java.sql.Date` without a declared target. */
  lemma DecodeTaggedSqlDate()
    ensures Decode("{'#class':'java.sql.Date','#value':'2011-08-01 08:11:41'}", None, HostDateClass)
              == Success(DateValue(SqlDate, SampleStamp))
  {
    SampleTextsHaveNoQuote();
    HostDateClassEntries();
    TaggedSqlDateText();
    ParseRender(Tagged("java.sql.Date", SampleStamp), TestStyle);
  }

  /** `{'#value':'…'}` decodes to a `java.sql.Date` when that is the declared target. */
  lemma DecodeValueOnlySqlDate()
    ensures Decode("{'#value':'2011-08-01 08:11:41'}", Some(SqlDate), HostDateClass)
              == Success(DateValue(SqlDate, SampleStamp))
  {
    SampleTextsHaveNoQuote();
    ValueOnlyText();
    ParseRender(ValueOnly(SampleStamp), TestStyle);
  }

  // ---------------------------------------------------------------------------
  // The sample texts, one concatenation of literals per lemma: the solver
  // compares long literals character by character, so each equation is kept
  // to a single step.

  lemma UtilTagLiteral1()
    ensures "{#class:'" + "Date" == "{#class:'Date"
  {
  }

  lemma UtilTagLiteral2()
    ensures "{#class:'Date" + "',#value:'" == "{#class:'Date',#value:'"
  {
  }

  lemma UtilTagLiteral3()
    ensures "{#class:'Date',#value:'" + SampleStamp == "{#class:'Date',#value:'2011-08-01 08:11:41"
  {
  }

  lemma UtilTagLiteral4()
    ensures "{#class:'Date',#value:'2011-08-01 08:11:41" + "'}"
              == "{#class:'Date',#value:'2011-08-01 08:11:41'}"
  {
  }

  lemma SqlTagLiteral1()
    ensures "{#class:'" + "java.sql.Date@82ae8779" == "{#class:'java.sql.Date@82ae8779"
  {
  }

  lemma SqlTagLiteral2()
    ensures "{#class:'java.sql.Date@82ae8779" + "',#value:'" == "{#class:'java.sql.Date@82ae8779',#value:'"
  {
  }

  lemma SqlTagLiteral3()
    ensures "{#class:'java.sql.Date@82ae8779',#value:'" + SampleStamp
              == "{#class:'java.sql.Date@82ae8779',#value:'2011-08-01 08:11:41"
  {
  }

  lemma SqlTagLiteral4()
    ensures "{#class:'java.sql.Date@82ae8779',#value:'2011-08-01 08:11:41" + "'}"
              == "{#class:'java.sql.Date@82ae8779',#value:'2011-08-01 08:11:41'}"
  {
  }

  lemma TaggedUtilDateLiteral1()
    ensures "{" + "'#class':'java.util.Date'" == "{'#class':'java.util.Date'"
  {
  }

  lemma TaggedUtilDateLiteral2()
    ensures "{'#class':'java.util.Date'" + "," == "{'#class':'java.util.Date',"
  {
  }

  lemma TaggedUtilDateLiteral3()
    ensures "{'#class':'java.util.Date'," + "'#value':'2011-08-01 08:11:41'"
              == "{'#class':'java.util.Date','#value':'2011-08-01 08:11:41'"
  {
  }

  lemma TaggedUtilDateLiteral4()
    ensures "{'#class':'java.util.Date','#value':'2011-08-01 08:11:41'" + "}"
              == "{'#class':'java.util.Date','#value':'2011-08-01 08:11:41'}"
  {
  }

  lemma TaggedSqlDateLiteral1()
    ensures "{" + "'#class':'java.sql.Date'" == "{'#class':'java.sql.Date'"
  {
  }

  lemma TaggedSqlDateLiteral2()
    ensures "{'#class':'java.sql.Date'" + "," == "{'#class':'java.sql.Date',"
  {
  }

  lemma TaggedSqlDateLiteral3()
    ensures "{'#class':'java.sql.Date'," + "'#value':'2011-08-01 08:11:41'"
              == "{'#class':'java.sql.Date','#value':'2011-08-01 08:11:41'"
  {
  }

  lemma TaggedSqlDateLiteral4()
    ensures "{'#class':'java.sql.Date','#value':'2011-08-01 08:11:41'" + "}"
              == "{'#class':'java.sql.Date','#value':'2011-08-01 08:11:41'}"
  {
  }

  lemma ValueOnlyLiteral1()
    ensures "{" + "'#value':'2011-08-01 08:11:41'" == "{'#value':'2011-08-01 08:11:41'"
  {
  }

  lemma ValueOnlyLiteral2()
    ensures "{'#value':'2011-08-01 08:11:41'" + "}" == "{'#value':'2011-08-01 08:11:41'}"
  {
  }
}
