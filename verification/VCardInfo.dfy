/** The loops of src/conn-contact-info.c that read fields from a vCard and make edits from fields. */
module VCardInfo {
  import opened Common
  import opened VCardSpec

  // ---- Reading ----

  method FieldParams(types: seq<Element>, children: seq<Child>) returns (params: seq<Param>)
    ensures params == ParamsFound(types, children)
  {
    params := [];
    var i := 0;
    assert types[0..] == types;
    while i < |types|
      invariant 0 <= i <= |types|
      invariant params + ParamsFound(types[i..], children) == ParamsFound(types, children)
    {
      assert types[i..][0] == types[i] && types[i..][1..] == types[i + 1..];
      if Find(children, types[i]).Some? { params := params + [Type(types[i])]; }
      i := i + 1;
    }
  }

  /** The array of strings ends at the first that is NULL. */
  method FieldValues(names: seq<Element>, children: seq<Child>) returns (values: seq<string>)
    ensures values == ValuesFound(names, children)
  {
    values := [];
    var i := 0;
    assert names[0..] == names;
    while i < |names|
      invariant 0 <= i <= |names|
      invariant values + ValuesFound(names[i..], children) == ValuesFound(names, children)
    {
      assert names[i..][0] == names[i] && names[i..][1..] == names[i + 1..];
      var child := Find(children, names[i]);
      if child.Some? && child.value.content.None? { break; }
      values := values + [if child.Some? then child.value.content.value else ""];
      i := i + 1;
    }
  }

  method CreateContactFieldExtended(node: Node) returns (f: ContactField)
    ensures f == StructuredField(node)
  {
    var params := FieldParams(TypesOf(node.name), node.children);
    var values := FieldValues(ElementsOf(node.name), node.children);
    f := ContactField(Lower(node.name), params, values);
  }

  /** The text so far, one more line and the rest. */
  lemma OneMoreLine(before: string, line: string, rest: seq<string>)
    ensures before + JoinLines([line] + rest) == before + EndLine(line) + JoinLines(rest)
  {
    assert ([line] + rest)[1..] == rest;
    assert before + (EndLine(line) + JoinLines(rest)) == before + EndLine(line) + JoinLines(rest);
  }

  method AppendLine(text: string, line: Option<string>) returns (longer: string)
    ensures longer == text + EndLine(Text(line))
  {
    longer := text;
    if line.Some? { longer := longer + line.value; }
    if line.None? || line.value == [] || line.value[|line.value| - 1] != '\n' { longer := longer + "\n"; }
  }

  method LabelText(children: seq<Child>) returns (text: string)
    ensures text == JoinLines(Contents(children, LINE))
  {
    text := [];
    var i := 0;
    assert children[0..] == children;
    while i < |children|
      invariant 0 <= i <= |children|
      invariant text + JoinLines(Contents(children[i..], LINE)) == JoinLines(Contents(children, LINE))
    {
      assert children[i..][0] == children[i] && children[i..][1..] == children[i + 1..];
      if children[i].name == LINE {
        OneMoreLine(text, Text(children[i].content), Contents(children[i + 1..], LINE));
        text := AppendLine(text, children[i].content);
      }
      i := i + 1;
    }
  }

  method ParseNode(node: Node) returns (f: Option<ContactField>)
    ensures f == FieldOf(node)
  {
    var behaviour := BehaviourOf(node.name);
    if behaviour.None? { return None; }
    match behaviour.value {
      case Simple | SimpleOnce =>
        f := Some(ContactField(Lower(node.name), [], if node.content.Some? then [node.content.value] else []));
      case Structured | StructuredOnce =>
        var field := CreateContactFieldExtended(node);
        f := Some(field);
      case Org =>
        var name := Find(node.children, ORGNAME);
        if name.None? { return None; }
        f := Some(ContactField(Lower(ORG), [], [Text(name.value.content)] + Contents(node.children, ORGUNIT)));
      case Label =>
        var text := LabelText(node.children);
        f := Some(ContactField(Lower(LABEL), [], [text]));
      case Ignored => f := None;
    }
  }

  method ParseVcard(vcard: seq<Node>) returns (info: seq<ContactField>)
    ensures info == Parse(vcard)
  {
    info := [];
    var i := 0;
    while i < |vcard|
      invariant 0 <= i <= |vcard|
      invariant info == Parse(vcard[..i])
    {
      assert vcard[..i + 1][..i] == vcard[..i] && vcard[..i + 1][i] == vcard[i];
      var f := ParseNode(vcard[i]);
      if f.Some? { info := info + [f.value]; }
      i := i + 1;
    }
    assert vcard[..i] == vcard;
  }

  // ---- Making edits ----

  method FindType(types: seq<Element>, param: Param) returns (used: bool)
    ensures used <==> param.Type? && param.element in types
  {
    var i := 0;
    while i < |types|
      invariant 0 <= i <= |types|
      invariant forall j :: 0 <= j < i ==> Type(types[j]) != param
    {
      if Type(types[i]) == param { return true; }
      i := i + 1;
    }
    return false;
  }

  function Join(made: seq<Child>, rest: Outcome<seq<Child>>): Outcome<seq<Child>> {
    if rest.Done? then Done(made + rest.value) else rest
  }

  lemma JoinNone(rest: Outcome<seq<Child>>)
    ensures Join([], rest) == rest
  {
    if rest.Done? { assert [] + rest.value == rest.value; }
  }

  /** A parameter that is in the table goes with those made before it. */
  lemma JoinParam(types: seq<Element>, made: seq<Child>, params: seq<Param>)
    requires params != [] && params[0].Type? && params[0].element in types
    ensures Join(made, ParamChildren(types, params))
            == Join(made + [Child(params[0].element, None)], ParamChildren(types, params[1..]))
  {
    var child, rest := Child(params[0].element, None), ParamChildren(types, params[1..]);
    if rest.Done? { assert made + ([child] + rest.value) == made + [child] + rest.value; }
  }

  method TypeChildren(types: seq<Element>, params: seq<Param>) returns (children: Outcome<seq<Child>>)
    ensures children == ParamChildren(types, params)
  {
    var made: seq<Child> := [];
    var p := 0;
    assert params[0..] == params;
    JoinNone(ParamChildren(types, params));
    while p < |params|
      invariant 0 <= p <= |params|
      invariant Join(made, ParamChildren(types, params[p..])) == ParamChildren(types, params)
    {
      var used := FindType(types, params[p]);
      if !used { return Invalid; }
      JoinParam(types, made, params[p..]);
      assert params[p..][1..] == params[p + 1..];
      made := made + [Child(params[p].element, None)];
      p := p + 1;
    }
    assert made + [] == made;
    children := Done(made);
  }

  method NewEditInfo(e: Element, content: Option<string>, params: seq<Param>) returns (edit: Outcome<Edit>)
    ensures edit == NewEdit(e, content, params)
  {
    var children := TypeChildren(TypesOf(e), params);
    if !children.Done? { return Invalid; }
    edit := Done(Edit(Once(e), Node(e, content, children.value)));
  }

  method SetContactInfo(fields: seq<ContactField>, usable: set<Element>) returns (commands: Outcome<seq<Command>>)
    ensures commands == Commands(fields, usable)
  {
    var made: seq<Command> := [];
    ghost var edits: seq<Edit> := [];
    var i := 0;
    ghost var outcomes := EditEach(fields, usable);
    while i < |fields|
      invariant 0 <= i <= |fields|
      invariant Sequence(outcomes[..i]) == Done(edits) && made == Puts(edits)
    {
      var edit := EditField(fields[i], usable);
      assert edit == outcomes[i];
      assert outcomes[..i + 1][..i] == outcomes[..i];
      if !edit.Done? {
        FailsEarly(outcomes, i + 1);
        return if edit.Invalid? then Invalid else Aborted;
      }
      made := made + [Put(edit.value)];
      edits := edits + [edit.value];
      i := i + 1;
    }
    assert outcomes[..i] == outcomes;
    commands := Done([ClearFields] + made + [SetAlias]);
  }

  /** A list that begins with one that fails, fails in the same way. */
  lemma {:induction false} FailsEarly(outcomes: seq<Outcome<Edit>>, n: nat)
    requires n <= |outcomes| && !Sequence(outcomes[..n]).Done?
    ensures Sequence(outcomes) == Sequence(outcomes[..n])
    decreases |outcomes|
  {
    if n == |outcomes| {
      assert outcomes[..n] == outcomes;
    } else {
      var last := |outcomes| - 1;
      assert outcomes[..last][..n] == outcomes[..n];
      FailsEarly(outcomes[..last], n);
    }
  }

  method EditField(f: ContactField, usable: set<Element>) returns (edit: Outcome<Edit>)
    ensures edit == EditOf(f, usable)
  {
    var field := Lookup(f.name);
    if field.None? || field.value !in usable { return Invalid; }
    var e := field.value;
    match BehaviourOf(e).value {
      case Simple | SimpleOnce =>
        if |f.values| != 1 { return Invalid; }
        edit := NewEditInfo(e, Some(f.values[0]), f.params);
      case Structured | StructuredOnce =>
        if |f.values| != |ElementsOf(e)| { return Invalid; }
        edit := NewEditInfo(e, None, f.params);
        edit := AddChildren(edit, ValueChildren(ElementsOf(e), f.values));
      case Org =>
        if f.values == [] { return Invalid; }
        edit := NewEditInfo(e, None, f.params);
        edit := AddChildren(edit, [Child(ORGNAME, Some(f.values[0]))] + Repeated(ORGUNIT, f.values[1..]));
      case Label =>
        if |f.values| != 1 { return Invalid; }
        edit := NewEditInfo(e, None, f.params);
        edit := AddChildren(edit, Repeated(LINE, LabelLines(f.values[0])));
      case Ignored => edit := Aborted;
    }
  }
}
