/** Redacting a whole payload: content, structured fields, tool arguments and paths. */
module Redact {
  import opened Basics
  import opened Capture
  import opened Paths

  // ---- payloads ----

  predicate PathField(key: string) {
    key != "cwd" && (EndsWith(key, "_path") || EndsWith(key, "_dir"))
  }

  lemma PathsAreNamed(key: string)
    ensures PathField(key) <==> key != "cwd" && exists stem: string :: key == stem + "_path" || key == stem + "_dir"
  {
    if EndsWith(key, "_path") { assert key == key[..|key| - 5] + "_path"; }
    if EndsWith(key, "_dir") { assert key == key[..|key| - 4] + "_dir"; }
  }

  function RedactField(base: string -> string, key: string, v: Json): Json {
    if ContentField(key) then Marker(v)
    else if StructuredField(key) then RedactNested(v)
    else if key == TOOL_INPUT && v.Obj? then Obj(MarkMembers(v.members))
    else if PathField(key) && v.Str? then Str(RedactPath(base, v.s))
    else v
  }

  function RedactPayload(base: string -> string, payload: seq<Member>): seq<Member> {
    seq(|payload|, i requires 0 <= i < |payload| =>
      Member(payload[i].key, RedactField(base, payload[i].key, payload[i].value)))
  }

  /** The member is redacted as a path. */
  predicate RedactedAsPath(m: Member) {
    !ContentField(m.key) && !StructuredField(m.key) && !(m.key == TOOL_INPUT && m.value.Obj?)
    && PathField(m.key) && m.value.Str?
  }

  lemma FieldRedactsOnce(base: string -> string, m: Member)
    requires Lawful(base)
    ensures var once := RedactField(base, m.key, m.value);
      RedactField(base, m.key, once) == once <==> (RedactedAsPath(m) ==> base(Normal(m.value.s)) != "")
  {
    if ContentField(m.key) {
      MarkerIsMarked(m.value);
    } else if StructuredField(m.key) {
      NestedIsClean(m.value);
      CleanIsFixed(RedactNested(m.value));
    } else if m.key == TOOL_INPUT && m.value.Obj? {
      forall i | 0 <= i < |m.value.members| { MarkerIsMarked(m.value.members[i].value); }
      assert MarkMembers(MarkMembers(m.value.members)) == MarkMembers(m.value.members);
    } else if RedactedAsPath(m) {
      PathRedactsOnce(base, m.value.s);
    }
  }

  /** Redacting a fixture again changes nothing exactly when every path in it names something.
      `Paths.PosixRedactsOnce` and `Paths.WindowsRedactsOnce` say when a path does. */
  lemma RedactIdempotent(base: string -> string, payload: seq<Member>)
    requires Lawful(base)
    ensures RedactPayload(base, RedactPayload(base, payload)) == RedactPayload(base, payload) <==>
      forall i :: 0 <= i < |payload| && RedactedAsPath(payload[i]) ==> base(Normal(payload[i].value.s)) != ""
  {
    var once := RedactPayload(base, payload);
    var twice := RedactPayload(base, once);
    forall i | 0 <= i < |payload|
      ensures twice[i] == once[i] <==> (RedactedAsPath(payload[i]) ==> base(Normal(payload[i].value.s)) != "")
    {
      FieldRedactsOnce(base, payload[i]);
    }
    if twice == once {
      forall i | 0 <= i < |payload| ensures twice[i] == once[i] {}
    }
  }

  /** What the record holds in each field: content as the text of its shape unless it was
      marker-shaped, structured fields with their skeleton, tool arguments with their names, one
      segment of each path; and no key is lost. */
  lemma RecordHolds(base: string -> string, payload: seq<Member>, i: nat)
    requires i < |payload| && Lawful(base)
    ensures |RedactPayload(base, payload)| == |payload|
    ensures var m, v := RedactPayload(base, payload)[i], payload[i].value;
      && m.key == payload[i].key
      && (m.key in PRIVATE ==> Recorded(v, m.value))
      && (m.key in STRUCTURED ==> NestedClean(m.value) && SameSkeleton(v, m.value))
      && (m.key == "tool_input" && v.Obj? ==> MemberSkeleton("tool_input", v, m.value))
      && (RedactedAsPath(payload[i]) ==> m.value.Str? && |m.value.s| >= 7 && '/' !in m.value.s[7..])
  {
    FieldHolds(base, payload[i]);
  }

  lemma FieldHolds(base: string -> string, m: Member)
    requires Lawful(base)
    ensures var v, w := m.value, RedactField(base, m.key, m.value);
      && (m.key in PRIVATE ==> Recorded(v, w))
      && (m.key in STRUCTURED ==> NestedClean(w) && SameSkeleton(v, w))
      && (m.key == "tool_input" && v.Obj? ==> MemberSkeleton("tool_input", v, w))
      && (RedactedAsPath(m) ==> w.Str? && |w.s| >= 7 && '/' !in w.s[7..])
  {
    var v := m.value;
    FieldsAreNamed(m.key);
    if ContentField(m.key) {
      MarkerIsRecorded(v);
    } else if StructuredField(m.key) {
      NestedIsClean(v);
      NestedKeepsSkeleton(v);
    } else if m.key == TOOL_INPUT && v.Obj? {
      ArgumentsHold(base, v);
    } else if RedactedAsPath(m) {
      assert NamesLast(base, Normal(v.s));
      assert RedactPath(base, v.s)[7..] == base(Normal(v.s));
    }
  }

  lemma ArgumentsHold(base: string -> string, v: Json)
    requires v.Obj?
    ensures MemberSkeleton(TOOL_INPUT, v, RedactField(base, TOOL_INPUT, v))
  {
    FieldsAreNamed(TOOL_INPUT);
    MemberKeepsSkeleton(TOOL_INPUT, v);
    assert RedactMember(TOOL_INPUT, v) == Obj(MarkMembers(v.members)) == RedactField(base, TOOL_INPUT, v);
  }

  // ---- what a redacted payload tells ----

  /** Equal but for the text of content and tool arguments, and the directories of paths. */
  predicate AgreeField(base: string -> string, key: string, v: Json, w: Json, forged: bool) {
    if key in PRIVATE then Alike(v, w, forged)
    else if key in STRUCTURED then AgreeNested(v, w, forged)
    else if key == TOOL_INPUT && v.Obj? && w.Obj? then AlikeMembers(v.members, w.members, forged)
    else if PathField(key) && v.Str? && w.Str? then base(Normal(v.s)) == base(Normal(w.s))
    else v == w
  }

  predicate Agree(base: string -> string, p: seq<Member>, q: seq<Member>, forged: bool) {
    |p| == |q| && forall i :: 0 <= i < |p| ==>
      p[i].key == q[i].key && AgreeField(base, p[i].key, p[i].value, q[i].value, forged)
  }

  lemma FieldTells(base: string -> string, key: string, v: Json, w: Json)
    ensures RedactField(base, key, v) == RedactField(base, key, w) <==> AgreeField(base, key, v, w, true)
  {
    FieldsAreNamed(key);
    if ContentField(key) {
      MarkerTells(v, w);
    } else if StructuredField(key) {
      NestedTells(v, w);
    } else if key == TOOL_INPUT {
      assert !PathField(key);
      if v.Obj? && w.Obj? { MarkMembersTells(v.members, w.members); }
    } else if PathField(key) && v.Str? && w.Str? {
      assert RedactPath(base, v.s)[7..] == base(Normal(v.s)) && RedactPath(base, w.s)[7..] == base(Normal(w.s));
    }
  }

  /**
   Two payloads redact to the same record exactly when they are equal outside their content and
   their content is alike. Of content that is not marker-shaped only kind and length can be read
   off the record, up to content that spells out the marker of such a value; marker-shaped
   content can be read in full.
   */
  lemma RedactTellsOnlyShape(base: string -> string, p: seq<Member>, q: seq<Member>)
    ensures RedactPayload(base, p) == RedactPayload(base, q) <==> Agree(base, p, q, true)
  {
    if |p| == |q| {
      var x, y := RedactPayload(base, p), RedactPayload(base, q);
      forall i | 0 <= i < |p| && p[i].key == q[i].key
        ensures x[i] == y[i] <==> AgreeField(base, p[i].key, p[i].value, q[i].value, true)
      {
        FieldTells(base, p[i].key, p[i].value, q[i].value);
      }
      if x == y {
        forall i | 0 <= i < |p| ensures p[i].key == q[i].key { assert x[i] == y[i]; }
      }
    } else {
      assert |RedactPayload(base, p)| != |RedactPayload(base, q)|;
    }
  }

  /**
   Noninterference: payloads that differ only in unmarked content of one kind and length, at any
   covered depth, and in the directories of paths leave the same record.
   */
  lemma ContentIsInvisible(base: string -> string, p: seq<Member>, q: seq<Member>)
    requires Agree(base, p, q, false)
    ensures RedactPayload(base, p) == RedactPayload(base, q)
  {
    forall i | 0 <= i < |p| ensures AgreeField(base, p[i].key, p[i].value, q[i].value, true) {
      if p[i].key in STRUCTURED { NestedAgreeWeakens(p[i].value, q[i].value); }
    }
    RedactTellsOnlyShape(base, p, q);
  }

  /** Content of the top level is recorded word for word exactly when it is marker-shaped, and the
      argument of a tool exactly when it is not an object or holds nothing but marker-shaped values. */
  lemma LeaksExactly(base: string -> string, key: string, v: Json)
    ensures key in PRIVATE ==> (RedactField(base, key, v) == v <==> IsMarker(v))
    ensures RedactField(base, TOOL_INPUT, v) == v <==>
      (v.Obj? ==> forall i :: 0 <= i < |v.members| ==> IsMarker(v.members[i].value))
  {
    KeptVerbatimExactly(v);
    assert !PathField(TOOL_INPUT);
    if v.Obj? {
      forall i | 0 <= i < |v.members|
        ensures Marker(v.members[i].value) == v.members[i].value <==> IsMarker(v.members[i].value)
      {
        KeptVerbatimExactly(v.members[i].value);
      }
      assert MarkMembers(v.members) == v.members <==>
        forall i :: 0 <= i < |v.members| ==> MarkMembers(v.members)[i] == v.members[i];
    }
  }

  /** A prompt written as markup, and a tool argument given as plain text, are recorded whole. */
  lemma MarkupPromptIsRecorded(base: string -> string, text: string)
    ensures var prompt := Str("<b>" + text + "</b>"); RedactField(base, "user_prompt", prompt) == prompt
    ensures RedactField(base, TOOL_INPUT, Str(text)) == Str(text)
  {
    MarkupIsRecorded(text);
    LeaksExactly(base, "user_prompt", Str(text));
  }

  // ---- the loops that compute it ----

  method MarkAll(ms: seq<Member>) returns (out: seq<Member>)
    ensures out == MarkMembers(ms)
  {
    out := [];
    for i := 0 to |ms|
      invariant out == MarkMembers(ms)[..i]
    {
      out := out + [Member(ms[i].key, Marker(ms[i].value))];
    }
  }

  method RedactNestedValue(v: Json) returns (out: Json)
    ensures out == RedactNested(v)
    decreases v
  {
    match v
    case Obj(ms) =>
      var ws: seq<Member> := [];
      for i := 0 to |ms|
        invariant ws == RedactNested(v).members[..i]
      {
        var key, value := ms[i].key, ms[i].value;
        if Content(key) {
          ws := ws + [Member(key, Marker(value))];
        } else if key == TOOL_INPUT && value.Obj? {
          var marked := MarkAll(value.members);
          ws := ws + [Member(key, Obj(marked))];
        } else {
          var inner := RedactNestedValue(value);
          ws := ws + [Member(key, inner)];
        }
      }
      out := Obj(ws);
    case List(items) =>
      var ws: seq<Json> := [];
      for i := 0 to |items|
        invariant ws == RedactNested(v).items[..i]
      {
        var inner := RedactNestedValue(items[i]);
        ws := ws + [inner];
      }
      out := List(ws);
    case _ =>
      out := v;
  }

  method RedactAll(base: string -> string, payload: seq<Member>) returns (out: seq<Member>)
    ensures out == RedactPayload(base, payload)
  {
    out := [];
    for i := 0 to |payload|
      invariant out == RedactPayload(base, payload)[..i]
    {
      var key, v := payload[i].key, payload[i].value;
      var w: Json;
      if ContentField(key) {
        w := Marker(v);
      } else if StructuredField(key) {
        w := RedactNestedValue(v);
      } else if key == TOOL_INPUT && v.Obj? {
        var marked := MarkAll(v.members);
        w := Obj(marked);
      } else if PathField(key) && v.Str? {
        w := Str(RedactPath(base, v.s));
      } else {
        w := v;
      }
      out := out + [Member(key, w)];
    }
  }
}
