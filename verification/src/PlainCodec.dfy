/** A codec that satisfies the laws assumed of JSON, so that what is proved from them is not vacuous. */
module PlainCodec {
  import opened Wrappers
  import opened Text
  import opened Json
  import opened Sse
  import opened ClaudeMessage

  /** Each character as its code point and a semicolon. */
  function Escape(s: string): (e: string)
    ensures forall c :: c in e ==> IsDigit(c) || c == ';'
  {
    if s == "" then "" else Numeral(s[0] as int) + ";" + Escape(s[1..])
  }

  lemma {:induction false} EscapeInjective(s: string, t: string)
    requires Split(Escape(s), ';') == Split(Escape(t), ';')
    ensures s == t
  {
    if s != "" {
      EscapeSplit(s);
    }
    if t != "" {
      EscapeSplit(t);
    }
    if s != "" && t != "" {
      var a, b := Split(Escape(s), ';'), Split(Escape(t), ';');
      assert a[0] == Numeral(s[0] as int) && b[0] == Numeral(t[0] as int);
      assert NumeralValue(a[0]) == s[0] as int && NumeralValue(b[0]) == t[0] as int;
      assert a[1..] == Split(Escape(s[1..]), ';') && b[1..] == Split(Escape(t[1..]), ';');
      EscapeInjective(s[1..], t[1..]);
      assert s == [s[0]] + s[1..] && t == [t[0]] + t[1..];
    }
  }

  lemma EscapeSplit(s: string)
    requires s != ""
    ensures Split(Escape(s), ';') == [Numeral(s[0] as int)] + Split(Escape(s[1..]), ';')
    ensures |Split(Escape(s), ';')| >= 2
  {
    hide Split, Numeral;
    var n := Numeral(s[0] as int);
    assert ';' !in n by { assert AllDigits(n); }
    SplitCons(n, Escape(s[1..]), ';');
    assert Escape(s) == n + [';'] + Escape(s[1..]);
  }

  /** The values that are written, by what they say. */
  datatype Said = Said(st: Stream, chunk: Chunk)

  function ValueOf(m: Said): Value {
    match m.chunk
    case Content(text, role) => ContentValue(m.st, text, role)
    case _ => FinishValue(m.st)
  }

  function Or(s: Option<string>): string {
    s.GetOr("")
  }

  function Delta(v: Value): Value {
    match GetArray(v, "choices")
    case Some(items) => if items == [] then Null else Get(items[0], "delta").GetOr(Null)
    case None => Null
  }

  function Tag(delta: Value): string {
    if Get(delta, "content").None? then "f" else if Get(delta, "role").None? then "c" else "r"
  }

  function Fields(v: Value): (f: seq<string>)
    ensures |f| == 4
  {
    [Escape(Or(GetString(v, "id"))), Escape(Or(GetString(v, "model"))), Escape(Or(GetString(Delta(v), "content"))),
        Tag(Delta(v))]
  }

  function Encode(v: Value): string {
    "{" + Join(Fields(v), ',') + "}"
  }

  ghost function Decode(s: string): Option<Value> {
    if exists m: Said :: Encode(ValueOf(m)) == s
    then var m: Said :| Encode(ValueOf(m)) == s; Some(ValueOf(m))
    else None
  }

  lemma FieldsOf(m: Said)
    ensures Fields(ValueOf(m)) == [Escape(m.st.id), Escape(m.st.model),
                                   Escape(if m.chunk.Content? then m.chunk.text else ""),
                                   if !m.chunk.Content? then "f" else if m.chunk.role then "r" else "c"]
  {
    hide Escape;
  }

  lemma JoinedFields(v: Value)
    ensures Split(Join(Fields(v), ','), ',') == Fields(v)
    ensures '\n' !in Join(Fields(v), ',')
  {
    hide Escape, Split, Tag, Delta;
    var f := Fields(v);
    assert Tag(Delta(v)) == "f" || Tag(Delta(v)) == "c" || Tag(Delta(v)) == "r" by { TagCases(Delta(v)); }
    forall p | p in f
      ensures ',' !in p && '\n' !in p
    {
      assert p == f[0] || p == f[1] || p == f[2] || p == f[3];
    }
    SplitJoin(f, ',');
    JoinKeepsOut(f, ',', '\n');
  }

  lemma TagCases(delta: Value)
    ensures Tag(delta) == "f" || Tag(delta) == "c" || Tag(delta) == "r"
  {}

  lemma {:induction false} JoinKeepsOut(parts: seq<string>, sep: char, c: char)
    requires |parts| >= 1 && c != sep && forall p :: p in parts ==> c !in p
    ensures c !in Join(parts, sep)
  {
    if |parts| > 1 {
      JoinKeepsOut(parts[1..], sep, c);
    }
  }

  lemma EncodeInjective(m: Said, n: Said)
    requires Encode(ValueOf(m)) == Encode(ValueOf(n))
    ensures ValueOf(m) == ValueOf(n)
  {
    hide Escape, Split, Fields, Join;
    var a, b := Join(Fields(ValueOf(m)), ','), Join(Fields(ValueOf(n)), ',');
    assert ("{" + a + "}")[1..|a| + 1] == a && ("{" + b + "}")[1..|b| + 1] == b;
    JoinedFields(ValueOf(m));
    JoinedFields(ValueOf(n));
    FieldsOf(m);
    FieldsOf(n);
    var f, g := Fields(ValueOf(m)), Fields(ValueOf(n));
    assert f[0] == g[0] && f[1] == g[1] && f[2] == g[2] && f[3] == g[3];
    EscapeInjective(m.st.id, n.st.id);
    EscapeInjective(m.st.model, n.st.model);
    EscapeInjective(if m.chunk.Content? then m.chunk.text else "", if n.chunk.Content? then n.chunk.text else "");
  }

  lemma EncodedFaithfully(m: Said)
    ensures Faithful(Codec(Encode, Decode), ValueOf(m))
  {
    var s := Encode(ValueOf(m));
    JoinedFields(ValueOf(m));
    hide Fields, Join, ValueOf;
    var n: Said :| Encode(ValueOf(n)) == s && Decode(s) == Some(ValueOf(n));
    EncodeInjective(m, n);
  }

  /** The laws can be met: decoding inverts encoding on everything the printers write. */
  lemma LawfulCodecExists()
    ensures exists c: Codec :: Lawful(c)
  {
    var c := Codec(Encode, Decode);
    forall st, text, role
      ensures Faithful(c, ContentValue(st, text, role))
    {
      EncodedFaithfully(Said(st, Content(text, role)));
    }
    forall st
      ensures Faithful(c, FinishValue(st))
    {
      EncodedFaithfully(Said(st, Finish));
    }
    assert Lawful(c);
  }

  function EncodeText(f: string): string {
    "{" + Escape(f) + "}"
  }

  ghost function DecodeText(s: string): Option<string> {
    if exists f :: EncodeText(f) == s then var f :| EncodeText(f) == s; Some(f) else None
  }

  lemma Unbraced(e: string)
    ensures var s := "{" + e + "}"; |s| == |e| + 2 && s[1..|s| - 1] == e
  {}

  lemma DecodedText(f: string)
    ensures ObjectText(EncodeText(f)) && DecodeText(EncodeText(f)) == Some(f)
  {
    hide Escape, Split;
    var s := EncodeText(f);
    var g :| EncodeText(g) == s && DecodeText(s) == Some(g);
    Unbraced(Escape(f));
    Unbraced(Escape(g));
    assert Escape(g) == EncodeText(g)[1..|s| - 1] == Escape(f);
    EscapeInjective(f, g);
  }

  /** Any text can arrive as a text delta. */
  lemma TextDeltaExists(fragment: string)
    ensures exists payload :: WellFormedEvent(DecodeText, TextDelta(fragment, payload))
  {
    hide EncodeText, DecodeText;
    var payload := EncodeText(fragment);
    DecodedText(fragment);
    SeenObject(payload);
    assert WellFormedEvent(DecodeText, TextDelta(fragment, payload));
  }

  lemma SeenObject(payload: string)
    requires ObjectText(payload)
    ensures Seen(payload) == payload && payload != "" && payload != "[DONE]"
  {
    TrimSpaceFixed(payload);
    var padded := " " + payload;
    assert padded[1..] == payload;
    assert TrimLeft(padded) == TrimLeft(payload);
  }
}
