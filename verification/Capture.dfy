/** Redacting captured payloads: the shape is kept, the content is not. */
module Capture {
  import opened Basics

  datatype Member = Member(key: string, value: Json)

  /** A payload value. The members of an object are in insertion order, no key twice. */
  datatype Json =
    | Null | Bool(b: bool) | Int(i: int) | Float(r: real)
    | Str(s: string)
    | List(items: seq<Json>)
    | Obj(members: seq<Member>)

  // ---- markers ----

  predicate IsMarker(v: Json) {
    v.Str? && v.s != "" && v.s[0] == '<' && Last(v.s) == '>'
  }

  function Digit(d: nat): char
    requires d < 10
  {
    '0' + (d as char)
  }

  function Decimal(n: nat): string {
    if n < 10 then [Digit(n)] else Decimal(n / 10) + [Digit(n % 10)]
  }

  function Sized(kind: string, n: nat): Json {
    Str("<" + kind + " len=" + Decimal(n) + ">")
  }

  /** The text that stands for a value: its kind and, where it has one, its length. */
  function ShapeText(v: Json): Json {
    match v
    case Str(s) => Sized("str", |s|)
    case List(items) => Sized("list", |items|)
    case Obj(members) => Sized("dict", |members|)
    case Null => Str("<NoneType>")
    case Bool(_) => Str("<bool>")
    case Int(_) => Str("<int>")
    case Float(_) => Str("<float>")
  }

  /** A value that looks redacted already is left as it is, whoever wrote it. */
  function Marker(v: Json): Json {
    if IsMarker(v) then v else ShapeText(v)
  }

  /** The same kind of value and, where it has one, the same length. */
  predicate SameShape(v: Json, w: Json) {
    match v
    case Str(s) => w.Str? && |s| == |w.s|
    case List(items) => w.List? && |items| == |w.items|
    case Obj(members) => w.Obj? && |members| == |w.members|
    case Null => w.Null?
    case Bool(_) => w.Bool?
    case Int(_) => w.Int?
    case Float(_) => w.Float?
  }

  lemma MarkersAreBracketed(v: Json)
    ensures IsMarker(v) <==> v.Str? && exists inner: string :: v.s == "<" + inner + ">"
  {
    if IsMarker(v) {
      assert v.s == "<" + v.s[1..|v.s| - 1] + ">";
    } else if v.Str? {
      forall inner: string ensures v.s != "<" + inner + ">" {
        var s := "<" + inner + ">";
        assert s[0] == '<' && Last(s) == '>';
      }
    }
  }

  lemma MarkerIsMarked(v: Json)
    ensures IsMarker(Marker(v)) && Marker(Marker(v)) == Marker(v)
  {
  }

  lemma {:induction false} DecimalInjective(m: nat, n: nat)
    requires Decimal(m) == Decimal(n)
    ensures m == n
    decreases m
  {
    if m >= 10 && n >= 10 {
      assert Front(Decimal(m)) == Decimal(m / 10) && Front(Decimal(n)) == Decimal(n / 10);
      assert Last(Decimal(m)) == Digit(m % 10) && Last(Decimal(n)) == Digit(n % 10);
      DecimalInjective(m / 10, n / 10);
    }
  }

  lemma SizedInjective(a: string, m: nat, b: string, n: nat)
    requires Sized(a, m) == Sized(b, n) && |a| == |b|
    ensures a == b && m == n
  {
    var s, t := Sized(a, m).s, Sized(b, n).s;
    assert a == s[1..1 + |a|] && b == t[1..1 + |b|];
    assert Decimal(m) == s[|a| + 6..|s| - 1] && Decimal(n) == t[|b| + 6..|t| - 1];
    DecimalInjective(m, n);
  }

  /** The text that stands for a value tells its kind and its length, and nothing else. */
  lemma ShapeTextTellsShape(v: Json, w: Json)
    ensures ShapeText(v) == ShapeText(w) <==> SameShape(v, w)
    ensures IsMarker(ShapeText(v))
  {
    if ShapeText(v) == ShapeText(w) {
      assert ShapeText(v).s[1] == ShapeText(w).s[1] && ShapeText(v).s[2] == ShapeText(w).s[2];
      match (v, w)
      case (Str(s), Str(t)) => SizedInjective("str", |s|, "str", |t|);
      case (List(a), List(b)) => SizedInjective("list", |a|, "list", |b|);
      case (Obj(f), Obj(g)) => SizedInjective("dict", |f|, "dict", |g|);
      case _ =>
    }
  }

  /** So the markers of two unredacted values are equal exactly when kind and length are. */
  lemma MarkerTellsShape(v: Json, w: Json)
    requires !IsMarker(v) && !IsMarker(w)
    ensures Marker(v) == Marker(w) <==> SameShape(v, w)
  {
    ShapeTextTellsShape(v, w);
  }

  /** A leaf is kept word for word exactly when it is marker-shaped; otherwise what is recorded
      is the text of its shape. */
  lemma KeptVerbatimExactly(v: Json)
    ensures Marker(v) == v <==> IsMarker(v)
    ensures !IsMarker(v) ==> Marker(v) == ShapeText(v)
  {
    ShapeTextTellsShape(v, v);
  }

  /** Markup is marker-shaped: content that opens with an angle bracket and closes with one is
      recorded whole, as a prompt, and as the command line of a background task. */
  lemma MarkupIsRecorded(text: string)
    ensures var markup := Str("<b>" + text + "</b>");
      && Marker(markup) == markup
      && RedactNested(List([Obj([Member("command", markup)])])) == List([Obj([Member("command", markup)])])
  {
    var markup := Str("<b>" + text + "</b>");
    var task := Obj([Member("command", markup)]);
    assert NestedClean(task) && NestedClean(List([task]));
    CleanIsFixed(List([task]));
  }

  /** The number a string of decimal digits reads as. */
  function Reading(digits: string): int
    decreases |digits|
  {
    if digits == "" then 0 else Reading(Front(digits)) * 10 + (Last(digits) as int - '0' as int)
  }

  lemma {:induction false} DecimalReads(n: nat)
    ensures Reading(Decimal(n)) == n && Decimal(n) != "" && (n > 0 ==> Decimal(n)[0] != '0')
    ensures forall i :: 0 <= i < |Decimal(n)| ==> '0' <= Decimal(n)[i] <= '9'
  {
    if n < 10 {
      assert Front(Decimal(n)) == "";
    } else {
      DecimalReads(n / 10);
      assert Front(Decimal(n)) == Decimal(n / 10);
    }
  }

  /** How the markers read. */
  lemma MarkersRead()
    ensures Marker(Str("secret")) == Str("<str len=6>") && Marker(Str("")) == Str("<str len=0>")
    ensures Marker(List([Null, Null])) == Str("<list len=2>") && Marker(Obj([])) == Str("<dict len=0>")
    ensures Marker(Null) == Str("<NoneType>") && Marker(Bool(true)) == Str("<bool>")
    ensures Marker(Int(7)) == Str("<int>") && Marker(Float(0.5)) == Str("<float>")
    ensures Marker(Str("<str len=6>")) == Str("<str len=6>")
  {
    assert Decimal(6) == "6" && Decimal(0) == "0" && Decimal(2) == "2";
  }

  // ---- structured fields ----

  predicate ContentField(key: string) {
    key in {"user_prompt", "last_assistant_message", "tool_output", "tool_response", "error", "message", "prompt"}
  }

  predicate NestedContentKey(key: string) {
    key in {"description", "ruleContent", "command"}
  }

  predicate StructuredField(key: string) {
    key in {"background_tasks", "permission_suggestions", "tool_calls", "session_crons"}
  }

  const TOOL_INPUT := "tool_input"

  // What a payload must not give away, by the names of its members.

  /** Conversation and user data at the top level. */
  const PRIVATE: set<string> :=
    {"user_prompt", "last_assistant_message", "tool_output", "tool_response", "error", "message", "prompt"}

  /** The same, and free text, inside a structured field. */
  const PRIVATE_WITHIN: set<string> := PRIVATE + {"description", "ruleContent", "command"}

  /** The fields kept for their structure. */
  const STRUCTURED: set<string> := {"background_tasks", "permission_suggestions", "tool_calls", "session_crons"}

  predicate Content(key: string) {
    NestedContentKey(key) || ContentField(key)
  }

  lemma FieldsAreNamed(key: string)
    ensures ContentField(key) <==> key in PRIVATE
    ensures Content(key) <==> key in PRIVATE_WITHIN
    ensures StructuredField(key) <==> key in STRUCTURED
    ensures key in STRUCTURED ==> key !in PRIVATE
    ensures key == TOOL_INPUT ==> key !in PRIVATE_WITHIN && key !in STRUCTURED
  {
  }

  /** Tool arguments: the names stay, the values are marked. */
  function MarkMembers(ms: seq<Member>): seq<Member> {
    seq(|ms|, i requires 0 <= i < |ms| => Member(ms[i].key, Marker(ms[i].value)))
  }

  function RedactNested(v: Json): Json
    decreases v, 0
  {
    match v
    case Obj(ms) => Obj(seq(|ms|, i requires 0 <= i < |ms| => Member(ms[i].key, RedactMember(ms[i].key, ms[i].value))))
    case List(items) => List(seq(|items|, i requires 0 <= i < |items| => RedactNested(items[i])))
    case _ => v
  }

  function RedactMember(key: string, v: Json): Json
    decreases v, 1
  {
    if Content(key) then Marker(v)
    else if key == TOOL_INPUT && v.Obj? then Obj(MarkMembers(v.members))
    else RedactNested(v)
  }

  /** Every content member, at every depth, is marker-shaped, and so is every tool argument. */
  predicate NestedClean(v: Json)
    decreases v, 0
  {
    match v
    case Obj(ms) => forall i :: 0 <= i < |ms| ==> MemberClean(ms[i].key, ms[i].value)
    case List(items) => forall i :: 0 <= i < |items| ==> NestedClean(items[i])
    case _ => true
  }

  predicate MemberClean(key: string, v: Json)
    decreases v, 1
  {
    if key in PRIVATE_WITHIN then IsMarker(v)
    else if key == TOOL_INPUT && v.Obj? then forall i :: 0 <= i < |v.members| ==> IsMarker(v.members[i].value)
    else NestedClean(v)
  }

  lemma {:induction false} NestedIsClean(v: Json)
    ensures NestedClean(RedactNested(v))
    decreases v, 0
  {
    match v
    case Obj(ms) =>
      forall i | 0 <= i < |ms| ensures MemberClean(ms[i].key, RedactMember(ms[i].key, ms[i].value)) {
        MemberIsClean(ms[i].key, ms[i].value);
      }
    case List(items) =>
      forall i | 0 <= i < |items| ensures NestedClean(RedactNested(items[i])) { NestedIsClean(items[i]); }
    case _ =>
  }

  lemma {:induction false} MemberIsClean(key: string, v: Json)
    ensures MemberClean(key, RedactMember(key, v))
    decreases v, 1
  {
    if key in PRIVATE_WITHIN {
      MarkerIsMarked(v);
    } else if key == TOOL_INPUT && v.Obj? {
      forall i | 0 <= i < |v.members| ensures IsMarker(Marker(v.members[i].value)) {
        MarkerIsMarked(v.members[i].value);
      }
    } else {
      NestedIsClean(v);
    }
  }

  /** What is clean is left alone, so redacting twice is redacting once. */
  lemma {:induction false} CleanIsFixed(v: Json)
    requires NestedClean(v)
    ensures RedactNested(v) == v
    decreases v, 0
  {
    match v
    case Obj(ms) =>
      forall i | 0 <= i < |ms| ensures RedactMember(ms[i].key, ms[i].value) == ms[i].value {
        CleanMemberIsFixed(ms[i].key, ms[i].value);
      }
      assert RedactNested(v).members == ms;
    case List(items) =>
      forall i | 0 <= i < |items| ensures RedactNested(items[i]) == items[i] { CleanIsFixed(items[i]); }
      assert RedactNested(v).items == items;
    case _ =>
  }

  lemma {:induction false} CleanMemberIsFixed(key: string, v: Json)
    requires MemberClean(key, v)
    ensures RedactMember(key, v) == v
    decreases v, 1
  {
    if key !in PRIVATE_WITHIN {
      if key == TOOL_INPUT && v.Obj? {
        assert MarkMembers(v.members) == v.members;
      } else {
        CleanIsFixed(v);
      }
    }
  }

  /** `w` is what may be recorded of content `v`: the text of its shape, or `v` itself exactly when
      it was marker-shaped to begin with. */
  predicate Recorded(v: Json, w: Json) {
    IsMarker(w) && (w == v <==> IsMarker(v)) && (!IsMarker(v) ==> w == ShapeText(v))
  }

  /** The same keys in the same order and the same list lengths, with content recorded as above. */
  predicate SameSkeleton(v: Json, w: Json)
    decreases v, 0
  {
    match v
    case Obj(ms) =>
      w.Obj? && |w.members| == |ms| &&
      forall i :: 0 <= i < |ms| ==>
        w.members[i].key == ms[i].key && MemberSkeleton(ms[i].key, ms[i].value, w.members[i].value)
    case List(items) =>
      w.List? && |w.items| == |items| && forall i :: 0 <= i < |items| ==> SameSkeleton(items[i], w.items[i])
    case _ => v == w
  }

  predicate MemberSkeleton(key: string, v: Json, w: Json)
    decreases v, 1
  {
    if key in PRIVATE_WITHIN then Recorded(v, w)
    else if key == TOOL_INPUT && v.Obj? then
      w.Obj? && |w.members| == |v.members| &&
      forall i :: 0 <= i < |v.members| ==>
        w.members[i].key == v.members[i].key && Recorded(v.members[i].value, w.members[i].value)
    else SameSkeleton(v, w)
  }

  lemma {:induction false} NestedKeepsSkeleton(v: Json)
    ensures SameSkeleton(v, RedactNested(v))
    decreases v, 0
  {
    match v
    case Obj(ms) =>
      forall i | 0 <= i < |ms| ensures MemberSkeleton(ms[i].key, ms[i].value, RedactMember(ms[i].key, ms[i].value)) {
        MemberKeepsSkeleton(ms[i].key, ms[i].value);
      }
    case List(items) =>
      forall i | 0 <= i < |items| ensures SameSkeleton(items[i], RedactNested(items[i])) {
        NestedKeepsSkeleton(items[i]);
      }
    case _ =>
  }

  lemma {:induction false} MemberKeepsSkeleton(key: string, v: Json)
    ensures MemberSkeleton(key, v, RedactMember(key, v))
    decreases v, 1
  {
    if key in PRIVATE_WITHIN {
      MarkerIsRecorded(v);
    } else if key == TOOL_INPUT && v.Obj? {
      forall i | 0 <= i < |v.members| ensures Recorded(v.members[i].value, Marker(v.members[i].value)) {
        MarkerIsRecorded(v.members[i].value);
      }
    } else {
      NestedKeepsSkeleton(v);
    }
  }

  /** What a tool answered, inside a call, and what a schedule will ask, are recorded by their shape. */
  lemma NestedContentIsHidden(secret: string)
    requires !IsMarker(Str(secret))
    ensures RedactNested(List([Obj([Member("tool_response", Str(secret))])]))
         == List([Obj([Member("tool_response", Sized("str", |secret|))])])
    ensures RedactNested(List([Obj([Member("prompt", Str(secret))])]))
         == List([Obj([Member("prompt", Sized("str", |secret|))])])
  {
    HiddenWithin("tool_response", secret);
    HiddenWithin("prompt", secret);
  }

  lemma HiddenWithin(key: string, secret: string)
    requires key in PRIVATE_WITHIN && !IsMarker(Str(secret))
    ensures RedactNested(List([Obj([Member(key, Str(secret))])])) == List([Obj([Member(key, Sized("str", |secret|))])])
  {
    var call := Obj([Member(key, Str(secret))]);
    NestedKeepsSkeleton(List([call]));
    var w := RedactNested(List([call]));
    assert SameSkeleton(call, w.items[0]);
    var m := w.items[0].members[0];
    assert m.key == key && MemberSkeleton(key, Str(secret), m.value);
    assert w.items[0].members == [Member(key, Sized("str", |secret|))];
    assert w.items == [Obj([Member(key, Sized("str", |secret|))])];
  }

  lemma MarkerIsRecorded(v: Json)
    ensures Recorded(v, Marker(v))
  {
    MarkerIsMarked(v);
    KeptVerbatimExactly(v);
  }

  // ---- noninterference ----

  /** Content that cannot be told apart once recorded: unmarked values of one kind and length. With
      `forged`, also a value and the very text that stands for it, written out as content. */
  predicate Alike(v: Json, w: Json, forged: bool) {
    || v == w
    || (!IsMarker(v) && !IsMarker(w) && SameShape(v, w))
    || (forged && !IsMarker(v) && w == ShapeText(v))
    || (forged && !IsMarker(w) && v == ShapeText(w))
  }

  lemma MarkerTells(v: Json, w: Json)
    ensures Marker(v) == Marker(w) <==> Alike(v, w, true)
  {
    ShapeTextTellsShape(v, w);
    ShapeTextTellsShape(w, v);
  }

  predicate AlikeMembers(a: seq<Member>, b: seq<Member>, forged: bool) {
    |a| == |b| && forall i :: 0 <= i < |a| ==> a[i].key == b[i].key && Alike(a[i].value, b[i].value, forged)
  }

  /** Equal but for the text of content members and tool arguments. */
  predicate AgreeNested(v: Json, w: Json, forged: bool)
    decreases v, 0
  {
    match v
    case Obj(a) =>
      w.Obj? && |a| == |w.members| &&
      forall i :: 0 <= i < |a| ==>
        a[i].key == w.members[i].key && AgreeMember(a[i].key, a[i].value, w.members[i].value, forged)
    case List(items) =>
      w.List? && |items| == |w.items| && forall i :: 0 <= i < |items| ==> AgreeNested(items[i], w.items[i], forged)
    case _ => v == w
  }

  predicate AgreeMember(key: string, v: Json, w: Json, forged: bool)
    decreases v, 1
  {
    if key in PRIVATE_WITHIN then Alike(v, w, forged)
    else if key == TOOL_INPUT && v.Obj? then w.Obj? && AlikeMembers(v.members, w.members, forged)
    else AgreeNested(v, w, forged)
  }

  /** Agreeing without forged markers is agreeing. */
  lemma {:induction false} NestedAgreeWeakens(v: Json, w: Json)
    requires AgreeNested(v, w, false)
    ensures AgreeNested(v, w, true)
    decreases v, 0
  {
    match v
    case Obj(a) =>
      forall i | 0 <= i < |a| ensures AgreeMember(a[i].key, a[i].value, w.members[i].value, true) {
        if a[i].key !in PRIVATE_WITHIN && !(a[i].key == TOOL_INPUT && a[i].value.Obj?) {
          AgreeMemberWeakens(a[i].key, a[i].value, w.members[i].value);
        }
      }
    case List(items) =>
      forall i | 0 <= i < |items| ensures AgreeNested(items[i], w.items[i], true) {
        NestedAgreeWeakens(items[i], w.items[i]);
      }
    case _ =>
  }

  lemma {:induction false} AgreeMemberWeakens(key: string, v: Json, w: Json)
    requires AgreeMember(key, v, w, false)
    ensures AgreeMember(key, v, w, true)
    decreases v, 1
  {
    if key !in PRIVATE_WITHIN && !(key == TOOL_INPUT && v.Obj?) { NestedAgreeWeakens(v, w); }
  }

  lemma MarkMembersTells(a: seq<Member>, b: seq<Member>)
    ensures MarkMembers(a) == MarkMembers(b) <==> AlikeMembers(a, b, true)
  {
    forall i | 0 <= i < |a| && i < |b|
      ensures Marker(a[i].value) == Marker(b[i].value) <==> Alike(a[i].value, b[i].value, true)
    {
      MarkerTells(a[i].value, b[i].value);
    }
    if MarkMembers(a) == MarkMembers(b) {
      forall i | 0 <= i < |a| ensures a[i].key == b[i].key && Alike(a[i].value, b[i].value, true) {
        assert MarkMembers(a)[i] == MarkMembers(b)[i];
      }
    }
  }

  /** Two structured values redact to the same tree exactly when they are equal outside content and
      their content is alike: one kind, one length, or equal, or one the forged marker of the other. */
  lemma {:induction false} NestedTells(v: Json, w: Json)
    ensures RedactNested(v) == RedactNested(w) <==> AgreeNested(v, w, true)
    decreases v, 0
  {
    if v.Obj? && w.Obj? && |v.members| == |w.members| {
      var a, b := v.members, w.members;
      forall i | 0 <= i < |a| && a[i].key == b[i].key
        ensures RedactMember(a[i].key, a[i].value) == RedactMember(b[i].key, b[i].value)
                <==> AgreeMember(a[i].key, a[i].value, b[i].value, true)
      {
        MemberTells(a[i].key, a[i].value, b[i].value);
      }
      var x, y := RedactNested(v).members, RedactNested(w).members;
      if x == y {
        forall i | 0 <= i < |a| ensures a[i].key == b[i].key && AgreeMember(a[i].key, a[i].value, b[i].value, true) {
          assert x[i] == y[i];
        }
      }
    } else if v.List? && w.List? && |v.items| == |w.items| {
      forall i | 0 <= i < |v.items|
        ensures RedactNested(v.items[i]) == RedactNested(w.items[i]) <==> AgreeNested(v.items[i], w.items[i], true)
      {
        NestedTells(v.items[i], w.items[i]);
      }
      var x, y := RedactNested(v).items, RedactNested(w).items;
      if x == y {
        forall i | 0 <= i < |v.items| ensures AgreeNested(v.items[i], w.items[i], true) { assert x[i] == y[i]; }
      }
    } else if v.Obj? && w.Obj? {
      assert |RedactNested(v).members| != |RedactNested(w).members|;
    } else if v.List? && w.List? {
      assert |RedactNested(v).items| != |RedactNested(w).items|;
    }
  }

  lemma {:induction false} MemberTells(key: string, v: Json, w: Json)
    ensures RedactMember(key, v) == RedactMember(key, w) <==> AgreeMember(key, v, w, true)
    decreases v, 1
  {
    if key in PRIVATE_WITHIN {
      MarkerTells(v, w);
    } else {
      if key == TOOL_INPUT && v.Obj? && w.Obj? {
        MarkMembersTells(v.members, w.members);
      } else {
        NestedTells(v, w);
      }
    }
  }
}
