/** The one JSON text of a document: keys sorted, no white space, non-ASCII characters as they are. */
module CanonicalJson {
  import opened Timestamps
  import Order = Text

  // ------------------------------------------------------------------
  // Strings
  // ------------------------------------------------------------------

  function Hex(n: nat): char
    requires n < 16
  {
    if n < 10 then ('0' as int + n) as char else ('a' as int + n - 10) as char
  }

  /** The letter behind the backslash of a short escape, if the character has one. */
  function Short(c: char): (r: char)
  {
    if c == '\U{8}' then 'b' else if c == '\U{C}' then 'f' else if c == '\n' then 'n' else if c == '\r' then 'r'
    else if c == '\t' then 't' else if c == '"' then '"' else if c == '\\' then '\\' else 'u'
  }

  function Escape(c: char): string {
    if Short(c) != 'u' then ['\\', Short(c)]
    else if c < ' ' then ['\\', 'u', '0', '0', Hex(c as int / 16), Hex(c as int % 16)]
    else [c]
  }

  function Escaped(s: string): string {
    if s == "" then "" else Escape(s[0]) + Escaped(s[1..])
  }

  function Quote(s: string): string {
    ['"'] + Escaped(s) + ['"']
  }

  lemma EscapesApart(c: char, d: char, x: string, y: string)
    requires Escape(c) + x == Escape(d) + y
    ensures c == d && x == y
  {
    var s, t := Escape(c) + x, Escape(d) + y;
    assert s[0] == t[0] && s[0] == Escape(c)[0] && t[0] == Escape(d)[0];
    if s[0] == '\\' {
      assert s[1] == Escape(c)[1] && t[1] == Escape(d)[1];
      if s[1] == 'u' {
        assert s[4] == Escape(c)[4] && t[4] == Escape(d)[4] && s[5] == Escape(c)[5] && t[5] == Escape(d)[5];
      }
    }
    assert |Escape(c)| == |Escape(d)|;
    assert s[|Escape(c)|..] == x && t[|Escape(d)|..] == y;
  }

  lemma EscapedStarts(s: string)
    requires s != ""
    ensures Escaped(s) != "" && Escaped(s)[0] != '"'
  {
    assert Escape(s[0])[0] != '"';
  }

  lemma EscapedStep(s: string, x: string)
    requires s != ""
    ensures Escaped(s) + ['"'] + x == Escape(s[0]) + (Escaped(s[1..]) + ['"'] + x)
  {
    hide Escape;
  }

  lemma {:induction false} EscapedApart(s: string, t: string, x: string, y: string)
    requires Escaped(s) + ['"'] + x == Escaped(t) + ['"'] + y
    ensures s == t && x == y
  {
    if s == "" || t == "" {
      EndsAlike(s, t, x, y);
    } else {
      EscapedStep(s, x);
      EscapedStep(t, y);
      hide Escape, Escaped;
      EscapesApart(s[0], t[0], Escaped(s[1..]) + ['"'] + x, Escaped(t[1..]) + ['"'] + y);
      EscapedApart(s[1..], t[1..], x, y);
      assert s == [s[0]] + s[1..] && t == [t[0]] + t[1..];
    }
  }

  lemma EndsAlike(s: string, t: string, x: string, y: string)
    requires Escaped(s) + ['"'] + x == Escaped(t) + ['"'] + y && (s == "" || t == "")
    ensures s == t && x == y
  {
    EndsIff(s, x);
    EndsIff(t, y);
  }

  lemma EndsIff(s: string, x: string)
    ensures var a := Escaped(s) + ['"'] + x;
      (a[0] == '"' <==> s == "") && (s == "" ==> a[1..] == x)
  {
    if s != "" {
      EscapedStarts(s);
    }
  }

  lemma QuotesApart(s: string, t: string, x: string, y: string)
    requires Quote(s) + x == Quote(t) + y
    ensures s == t && x == y
  {
    var a, b := Quote(s) + x, Quote(t) + y;
    assert a[1..] == Escaped(s) + ['"'] + x && b[1..] == Escaped(t) + ['"'] + y;
    EscapedApart(s, t, x, y);
  }

  // ------------------------------------------------------------------
  // Values
  // ------------------------------------------------------------------

  function Size(v: Value): nat {
    match v
    case Items(items) => |items| + 1
    case Object(fields) => |fields| + 1
    case _ => 0
  }

  /** The one text of a value. */
  function Json(v: Value): string
    decreases v, Size(v)
  {
    match v
    case Str(s) => Quote(s)
    case Other(token) => token
    case Items(items) => "[" + Elements(v, 0)
    case Object(fields) => "{" + Members(v, Order.Sorted(fields.Keys), 0)
  }

  /** The elements of a list from the i-th on, and the bracket that closes it. */
  function Elements(v: Value, i: nat): string
    requires v.Items? && i <= |v.items|
    decreases v, |v.items| - i, 0
  {
    if i == |v.items| then "]" else Json(v.items[i]) + AfterElement(v, i)
  }

  function AfterElement(v: Value, i: nat): string
    requires v.Items? && i < |v.items|
    decreases v, |v.items| - i - 1, 1
  {
    if i + 1 == |v.items| then "]" else "," + Elements(v, i + 1)
  }

  /** The members of an object from the i-th key on, and the brace that closes it. */
  function Members(v: Value, keys: seq<string>, i: nat): string
    requires v.Object? && i <= |keys| <= |v.fields| && forall k :: k in keys ==> k in v.fields
    decreases v, |keys| - i, 0
  {
    if i == |keys| then "}" else Quote(keys[i]) + (":" + (Json(v.fields[keys[i]]) + AfterMember(v, keys, i)))
  }

  function AfterMember(v: Value, keys: seq<string>, i: nat): string
    requires v.Object? && i < |keys| <= |v.fields| && forall k :: k in keys ==> k in v.fields
    decreases v, |keys| - i - 1, 1
  {
    if i + 1 == |keys| then "}" else "," + Members(v, keys, i + 1)
  }

  /** The texts with commas between them and nothing else. */
  function Joined(texts: seq<string>): string {
    if texts == [] then ""
    else if |texts| == 1 then texts[0]
    else texts[0] + "," + Joined(texts[1..])
  }

  function MemberText(v: Value, key: string): string
    requires v.Object? && key in v.fields
  {
    Quote(key) + ":" + Json(v.fields[key])
  }

  lemma {:induction false} ElementsAreJoined(v: Value, texts: seq<string>, i: nat)
    requires v.Items? && |texts| == |v.items| && forall j :: 0 <= j < |texts| ==> texts[j] == Json(v.items[j])
    requires i <= |texts|
    ensures Elements(v, i) == Joined(texts[i..]) + "]"
    decreases |texts| - i
  {
    if i < |texts| {
      ElementsAreJoined(v, texts, i + 1);
      assert texts[i..][1..] == texts[i + 1..];
      hide Joined;
      JoinedStep(texts[i..]);
    }
  }

  lemma JoinedStep(texts: seq<string>)
    ensures Joined(texts) == (if texts == [] then ""
                              else if |texts| == 1 then texts[0] else texts[0] + "," + Joined(texts[1..]))
  {
  }

  lemma {:induction false} MembersAreJoined(v: Value, keys: seq<string>, texts: seq<string>, i: nat)
    requires v.Object? && |keys| <= |v.fields| && |texts| == |keys|
    requires forall k :: k in keys ==> k in v.fields
    requires forall j :: 0 <= j < |keys| ==> texts[j] == MemberText(v, keys[j])
    requires i <= |keys|
    ensures Members(v, keys, i) == Joined(texts[i..]) + "}"
    decreases |texts| - i
  {
    hide *;
    MembersUnfold(v, keys, i);
    JoinedStep(texts[i..]);
    if i + 1 < |texts| {
      assert texts[i..][1..] == texts[i + 1..];
      MembersAreJoined(v, keys, texts, i + 1);
      CommaBetween(texts[i], Joined(texts[i + 1..]));
    }
  }

  lemma CommaBetween(text: string, rest: string)
    ensures text + ("," + (rest + "}")) == text + "," + rest + "}"
  {
  }

  lemma MembersUnfold(v: Value, keys: seq<string>, i: nat)
    requires v.Object? && i <= |keys| <= |v.fields| && forall k :: k in keys ==> k in v.fields
    ensures i == |keys| ==> Members(v, keys, i) == "}"
    ensures i < |keys| ==>
      Members(v, keys, i) == MemberText(v, keys[i]) + if i + 1 == |keys| then "}" else "," + Members(v, keys, i + 1)
  {
    hide Json, Quote;
  }

  /** A list is its elements' texts, in order and separated by single commas, between brackets. */
  lemma ListIsJoined(items: seq<Value>, texts: seq<string>)
    requires |texts| == |items| && forall j :: 0 <= j < |texts| ==> texts[j] == Json(items[j])
    ensures Json(Items(items)) == "[" + Joined(texts) + "]"
  {
    var v := Items(items);
    ElementsAreJoined(v, texts, 0);
    assert texts[0..] == texts;
    hide Joined, Elements;
  }

  /** An object is its members, keys ascending, separated by single commas, between braces. */
  lemma ObjectIsJoined(fields: map<string, Value>, keys: seq<string>, texts: seq<string>)
    requires keys == Order.Sorted(fields.Keys) && |texts| == |keys|
    requires forall j :: 0 <= j < |keys| ==> keys[j] in fields && texts[j] == MemberText(Object(fields), keys[j])
    ensures Json(Object(fields)) == "{" + Joined(texts) + "}"
  {
    hide *;
    BracesAround(fields);
    MembersAreJoined(Object(fields), keys, texts, 0);
    assert texts[0..] == texts;
    Braced(Joined(texts));
  }

  lemma BracesAround(fields: map<string, Value>)
    ensures var keys := Order.Sorted(fields.Keys);
      && |keys| == |fields| && (forall k :: k in keys ==> k in fields)
      && Json(Object(fields)) == "{" + Members(Object(fields), keys, 0)
  {
    hide Members, Order.Ascending;
  }

  lemma Braced(x: string)
    ensures "{" + (x + "}") == "{" + x + "}"
  {
  }

  /** A quote, a backslash, a line end and another control character, as they are written. */
  lemma EscapesShown()
    ensures Quote("\"\\\n\U{1F}a") == ['"', '\\', '"', '\\', '\\', '\\', 'n', '\\', 'u', '0', '0', '1', 'f', 'a', '"']
  {
    var s := "\"\\\n\U{1F}a";
    assert s[1..] == "\\\n\U{1F}a" && s[1..][1..] == "\n\U{1F}a" && s[1..][1..][1..] == "\U{1F}a";
    assert s[1..][1..][1..][1..] == "a" && "a"[1..] == "";
    assert Escaped("a") == "a" && Escaped("\U{1F}a") == ['\\', 'u', '0', '0', '1', 'f', 'a'];
    assert Escaped("\n\U{1F}a") == ['\\', 'n', '\\', 'u', '0', '0', '1', 'f', 'a'];
  }

  // ------------------------------------------------------------------
  // No two values have one text
  // ------------------------------------------------------------------

  /** What may follow a value: nothing, or a character no token holds. */
  predicate Stops(x: string) {
    x == "" || x[0] == ',' || x[0] == ']' || x[0] == '}'
  }

  predicate IsToken(t: string) {
    t != "" && forall i :: 0 <= i < |t| ==> IsTokenChar(t[i])
  }

  /** How many leading characters a token could hold. */
  function Run(s: string): nat {
    if s == "" || !IsTokenChar(s[0]) then 0 else 1 + Run(s[1..])
  }

  lemma {:induction false} RunOfToken(t: string, x: string)
    requires Stops(x) && forall i :: 0 <= i < |t| ==> IsTokenChar(t[i])
    ensures Run(t + x) == |t|
  {
    if t == "" {
      assert t + x == x;
    } else {
      RunOfToken(t[1..], x);
      assert (t + x)[1..] == t[1..] + x;
    }
  }

  lemma TokensApart(t: string, u: string, x: string, y: string)
    requires IsToken(t) && IsToken(u) && t + x == u + y && Stops(x) && Stops(y)
    ensures t == u && x == y
  {
    RunOfToken(t, x);
    RunOfToken(u, y);
    SameLength(t, u, x, y);
  }

  lemma SameLength(a: string, b: string, x: string, y: string)
    requires a + x == b + y && |a| == |b|
    ensures a == b && x == y
  {
    assert (a + x)[..|a|] == a && (b + y)[..|b|] == b && (a + x)[|a|..] == x && (b + y)[|b|..] == y;
  }

  /** The first character tells the kinds of value apart, and none closes a list or an object. */
  lemma Starts(v: Value)
    ensures Json(v) != "" && Json(v)[0] !in {']', '}', ','}
    ensures v.Str? <==> Json(v)[0] == '"'
    ensures v.Items? <==> Json(v)[0] == '['
    ensures v.Object? <==> Json(v)[0] == '{'
    ensures v.Other? ==> IsToken(Json(v))
  {
    hide Members, Elements, Order.Sorted, Escaped;
    if v.Other? {
      assert IsTokenChar(v.repr[0]);
    }
  }

  /** A text that begins with a value's text shows which value, and what is left. */
  lemma {:induction false} ValuesApart(v: Value, w: Value, x: string, y: string)
    requires Json(v) + x == Json(w) + y && Stops(x) && Stops(y)
    ensures v == w && x == y
    decreases v, Size(v)
  {
    Starts(v);
    Starts(w);
    assert (Json(v) + x)[0] == Json(v)[0] && (Json(w) + y)[0] == Json(w)[0];
    hide Escaped, Quote, Order.Sorted, Stops;
    match v
    case Str(s) => QuotesApart(s, w.s, x, y);
    case Other(_) => TokensApart(Json(v), Json(w), x, y);
    case Items(items) =>
      Opened("[", Elements(v, 0), x);
      Opened("[", Elements(w, 0), y);
      ElementsApart(v, w, 0, x, y);
      assert items == items[0..] && w.items == w.items[0..];
    case Object(fields) =>
      var keys, others := Order.Sorted(fields.Keys), Order.Sorted(w.fields.Keys);
      Opened("{", Members(v, keys, 0), x);
      Opened("{", Members(w, others, 0), y);
      MembersApart(v, w, keys, others, 0, x, y);
      assert keys == keys[0..] && others == others[0..];
      ObjectsEqual(fields, w.fields, keys);
  }

  lemma Opened(bracket: string, rest: string, x: string)
    requires |bracket| == 1
    ensures (bracket + rest + x)[1..] == rest + x
  {
  }

  lemma ObjectsEqual(a: map<string, Value>, b: map<string, Value>, keys: seq<string>)
    requires (forall k :: k in keys <==> k in a) && (forall k :: k in keys <==> k in b)
    requires forall i :: 0 <= i < |keys| ==> a[keys[i]] == b[keys[i]]
    ensures a == b
  {
    assert a.Keys == b.Keys;
  }

  lemma {:induction false} ElementsApart(v: Value, w: Value, i: nat, x: string, y: string)
    requires v.Items? && w.Items? && i <= |v.items| && i <= |w.items|
    requires Elements(v, i) + x == Elements(w, i) + y
    ensures v.items[i..] == w.items[i..] && x == y
    decreases v, |v.items| - i
  {
    ElementsBegin(v, i, x);
    ElementsBegin(w, i, y);
    hide Json, Elements;
    if i < |v.items| && i < |w.items| {
      ValuesApart(v.items[i], w.items[i], AfterElement(v, i) + x, AfterElement(w, i) + y);
      if i + 1 < |v.items| && i + 1 < |w.items| {
        ElementsApart(v, w, i + 1, x, y);
      }
    }
  }

  lemma ElementsBegin(v: Value, i: nat, x: string)
    requires v.Items? && i <= |v.items|
    ensures var a := Elements(v, i) + x;
      a != "" && (a[0] == ']' <==> i == |v.items|) && (i == |v.items| ==> a[1..] == x)
    ensures i < |v.items| ==> Elements(v, i) + x == Json(v.items[i]) + (AfterElement(v, i) + x)
    ensures i < |v.items| ==>
      var b := AfterElement(v, i) + x;
      && Stops(b) && (b[0] == ']' <==> i + 1 == |v.items|)
      && b[1..] == if i + 1 == |v.items| then x else Elements(v, i + 1) + x
    ensures i < |v.items| ==> v.items[i..] == [v.items[i]] + v.items[i + 1..]
  {
    if i < |v.items| {
      Starts(v.items[i]);
      hide Json;
    }
  }

  lemma {:induction false} MembersApart(v: Value, w: Value, keys: seq<string>, others: seq<string>, i: nat, x: string,
                                        y: string)
    requires v.Object? && i <= |keys| <= |v.fields| && forall k :: k in keys ==> k in v.fields
    requires w.Object? && i <= |others| <= |w.fields| && forall k :: k in others ==> k in w.fields
    requires Members(v, keys, i) + x == Members(w, others, i) + y
    ensures keys[i..] == others[i..] && x == y
    ensures forall j :: i <= j < |keys| ==> keys[j] in w.fields && v.fields[keys[j]] == w.fields[keys[j]]
    decreases v, |keys| - i
  {
    MembersBegin(v, keys, i, x);
    MembersBegin(w, others, i, y);
    hide Json, Members, Quote;
    if i < |keys| && i < |others| {
      var k, l := keys[i], others[i];
      var a := Json(v.fields[k]) + (AfterMember(v, keys, i) + x);
      var b := Json(w.fields[l]) + (AfterMember(w, others, i) + y);
      QuotesApart(k, l, ":" + a, ":" + b);
      assert (":" + a)[1..] == a && (":" + b)[1..] == b;
      ValuesApart(v.fields[k], w.fields[l], AfterMember(v, keys, i) + x, AfterMember(w, others, i) + y);
      if i + 1 < |keys| && i + 1 < |others| {
        MembersApart(v, w, keys, others, i + 1, x, y);
      }
    }
  }

  lemma MembersBegin(v: Value, keys: seq<string>, i: nat, x: string)
    requires v.Object? && i <= |keys| <= |v.fields| && forall k :: k in keys ==> k in v.fields
    ensures var a := Members(v, keys, i) + x;
      (a[0] == '}' <==> i == |keys|) && (i == |keys| ==> a[1..] == x)
    ensures i < |keys| ==>
      Members(v, keys, i) + x == Quote(keys[i]) + (":" + (Json(v.fields[keys[i]]) + (AfterMember(v, keys, i) + x)))
    ensures i < |keys| ==>
      var b := AfterMember(v, keys, i) + x;
      && Stops(b) && (b[0] == '}' <==> i + 1 == |keys|)
      && b[1..] == if i + 1 == |keys| then x else Members(v, keys, i + 1) + x
    ensures i < |keys| ==> keys[i..] == [keys[i]] + keys[i + 1..]
  {
    MembersOnce(v, keys, i);
    if i < |keys| {
      MemberEnds(v, keys, i, x);
      QuoteOpens(keys[i]);
      hide *;
      Reassociated(Quote(keys[i]), Json(v.fields[keys[i]]), AfterMember(v, keys, i), x);
    }
    hide *;
  }

  lemma MembersOnce(v: Value, keys: seq<string>, i: nat)
    requires v.Object? && i <= |keys| <= |v.fields| && forall k :: k in keys ==> k in v.fields
    ensures Members(v, keys, i)
      == if i == |keys| then "}" else Quote(keys[i]) + (":" + (Json(v.fields[keys[i]]) + AfterMember(v, keys, i)))
  {
    hide Json, Quote, AfterMember;
  }

  lemma QuoteOpens(s: string)
    ensures Quote(s) != "" && Quote(s)[0] == '"'
  {
    hide Escaped;
  }

  lemma Reassociated(quote: string, value: string, after: string, x: string)
    ensures quote + (":" + (value + after)) + x == quote + (":" + (value + (after + x)))
  {
    assert ":" + (value + after) + x == ":" + (value + after + x);
    assert value + after + x == value + (after + x);
  }

  lemma MemberEnds(v: Value, keys: seq<string>, i: nat, x: string)
    requires v.Object? && i < |keys| <= |v.fields| && forall k :: k in keys ==> k in v.fields
    ensures var b := AfterMember(v, keys, i) + x;
      && Stops(b) && (b[0] == '}' <==> i + 1 == |keys|)
      && b[1..] == if i + 1 == |keys| then x else Members(v, keys, i + 1) + x
  {
    hide Json, Members, Quote;
  }

  /** Two values with one canonical text are one value. */
  lemma JsonTellsApart(v: Value, w: Value)
    requires Json(v) == Json(w)
    ensures v == w
  {
    assert Json(v) + "" == Json(v) && Json(w) + "" == Json(w);
    hide Json;
    ValuesApart(v, w, "", "");
  }

  // ------------------------------------------------------------------
  // What is signed
  // ------------------------------------------------------------------

  /** The members of a document but for its signature. */
  function Unsigned(doc: map<string, Value>): Value {
    Object(doc - {"signature"})
  }

  /** The signed bytes: the canonical JSON of the normal form of everything but the signature. */
  function SignableBytes(doc: map<string, Value>): string
    requires Accepted(Unsigned(doc))
  {
    Json(NormalizeValue(Unsigned(doc)))
  }

  /**
   * Two documents are signed as one if and only if, signature apart, they differ at most in how they spell the same
   * instants: re-serialising timestamps never breaks a signature, and nothing else is forgiven.
   */
  lemma SignedAlikeIff(a: map<string, Value>, b: map<string, Value>)
    requires Accepted(Unsigned(a)) && Accepted(Unsigned(b))
    ensures SignableBytes(a) == SignableBytes(b) <==> SameDocument(Unsigned(a), Unsigned(b))
  {
    DocumentsAgreeIff(Unsigned(a), Unsigned(b));
    hide NormalizeValue, SameDocument, Json;
    if SignableBytes(a) == SignableBytes(b) {
      JsonTellsApart(NormalizeValue(Unsigned(a)), NormalizeValue(Unsigned(b)));
    }
  }

  /** A document stored in normal form signs to the bytes it was signed with. */
  lemma ServedDocumentSignsAlike(doc: map<string, Value>)
    requires Accepted(Unsigned(doc))
    ensures var served := NormalizeValue(Unsigned(doc)).fields;
      Accepted(Unsigned(served)) && SignableBytes(served) == SignableBytes(doc)
  {
    DocumentIdempotent(Unsigned(doc));
    hide Json;
    var served := NormalizeValue(Unsigned(doc)).fields;
    assert served - {"signature"} == served;
  }
}
