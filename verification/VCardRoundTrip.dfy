/** Reading back a vCard made from a list of fields gives the same fields, in a canonical form. */
module VCardRoundTrip {
  import opened Common
  import opened VCardSpec

  // ---- The canonical form of a field ----

  /** The parameters in the order of the table, each once. */
  function InOrder(types: seq<Element>, params: seq<Param>): seq<Param>
    decreases |types|
  {
    if types == [] then []
    else if Type(types[0]) in params then [Type(types[0])] + InOrder(types[1..], params)
    else InOrder(types[1..], params)
  }

  /** A label ends with a newline, unless it is empty. */
  function Ended(s: string): string {
    if s == [] || s[|s| - 1] == '\n' then s else s + "\n"
  }

  predicate IsStructured(e: Element) {
    BehaviourOf(e) == Some(Structured) || BehaviourOf(e) == Some(StructuredOnce)
  }

  /** What comes back of a field with a known name: under the name of its element, the parameters in
      order for structured fields and dropped for labels, the text of a label ended. */
  function Canonical(f: ContactField): ContactField {
    match Lookup(f.name)
    case None => f
    case Some(e) =>
      ContactField(Lower(e),
                   if IsStructured(e) then InOrder(TypesOf(e), f.params) else [],
                   if e == LABEL && f.values != [] then [Ended(f.values[0])] else f.values)
  }

  predicate OnceOnly(f: ContactField) { Lookup(f.name).Some? && Once(Lookup(f.name).value) }

  // ---- Children ----

  predicate Among(names: seq<Element>, children: seq<Child>) {
    forall k :: 0 <= k < |children| ==> children[k].name in names
  }

  lemma {:induction false} FindNone(children: seq<Child>, name: Element)
    requires forall k :: 0 <= k < |children| ==> children[k].name != name
    ensures Find(children, name).None? && Contents(children, name) == []
    decreases |children|
  {
    if children != [] { FindNone(children[1..], name); }
  }

  lemma {:induction false} FindConcat(p: seq<Child>, v: seq<Child>, name: Element)
    ensures Find(p + v, name) == if Find(p, name).Some? then Find(p, name) else Find(v, name)
    ensures Contents(p + v, name) == Contents(p, name) + Contents(v, name)
    decreases |p|
  {
    if p == [] {
      assert p + v == v;
    } else {
      assert (p + v)[0] == p[0] && (p + v)[1..] == p[1..] + v;
      FindConcat(p[1..], v, name);
    }
  }

  /** The children for parameters stand for exactly the parameters given. */
  lemma {:induction false} ParamsPrinted(types: seq<Element>, params: seq<Param>, t: Element)
    requires ParamChildren(types, params).Done?
    ensures var p := ParamChildren(types, params).value;
            Among(types, p) && (Find(p, t).Some? <==> Type(t) in params)
    decreases |params|
  {
    if params != [] { ParamsPrinted(types, params[1..], t); }
  }

  lemma {:induction false} ParamsRead(all: seq<Element>, types: seq<Element>, params: seq<Param>, v: seq<Child>)
    requires ParamChildren(all, params).Done?
    requires forall k :: 0 <= k < |v| ==> v[k].name !in types
    ensures ParamsFound(types, ParamChildren(all, params).value + v) == InOrder(types, params)
    decreases |types|
  {
    if types != [] {
      var p := ParamChildren(all, params).value;
      ParamsPrinted(all, params, types[0]);
      FindNone(v, types[0]);
      FindConcat(p, v, types[0]);
      ParamsRead(all, types[1..], params, v);
    }
  }

  lemma {:induction false} ValuePrinted(names: seq<Element>, values: seq<string>, i: nat)
    requires |names| == |values| && i < |names| && Distinct(names)
    ensures Find(ValueChildren(names, values), names[i]) == Some(Child(names[i], Some(values[i])))
    decreases i
  {
    var v := ValueChildren(names, values);
    if i > 0 {
      assert v[1..] == ValueChildren(names[1..], values[1..]);
      ValuePrinted(names[1..], values[1..], i - 1);
    }
  }

  lemma {:induction false} ValuesRead(names: seq<Element>, values: seq<string>, children: seq<Child>)
    requires |names| == |values|
    requires forall i :: 0 <= i < |names| ==> Find(children, names[i]) == Some(Child(names[i], Some(values[i])))
    ensures ValuesFound(names, children) == values
    decreases |names|
  {
    if names != [] {
      ValuesRead(names[1..], values[1..], children);
      assert values == [values[0]] + values[1..];
    }
  }

  /** Every structured field of the table has elements that differ from each other and its types. */
  lemma TableDisjoint(e: Element)
    requires IsStructured(e)
    ensures Distinct(ElementsOf(e))
    ensures forall i :: 0 <= i < |ElementsOf(e)| ==> ElementsOf(e)[i] !in TypesOf(e)
  {
  }

  lemma StructuredRead(e: Element, params: seq<Param>, values: seq<string>)
    requires IsStructured(e) && ParamChildren(TypesOf(e), params).Done? && |values| == |ElementsOf(e)|
    ensures var children := ParamChildren(TypesOf(e), params).value + ValueChildren(ElementsOf(e), values);
            StructuredField(Node(e, None, children)) == ContactField(Lower(e), InOrder(TypesOf(e), params), values)
  {
    var names, types := ElementsOf(e), TypesOf(e);
    var p, v := ParamChildren(types, params).value, ValueChildren(names, values);
    TableDisjoint(e);
    ParamsRead(types, types, params, v);
    forall i | 0 <= i < |names| ensures Find(p + v, names[i]) == Some(Child(names[i], Some(values[i]))) {
      ParamsPrinted(types, params, names[i]);
      FindNone(p, names[i]);
      FindConcat(p, v, names[i]);
      ValuePrinted(names, values, i);
    }
    ValuesRead(names, values, p + v);
  }

  lemma {:induction false} RepeatedRead(name: Element, values: seq<string>)
    ensures Contents(Repeated(name, values), name) == values
    decreases |values|
  {
    if values != [] {
      assert Repeated(name, values)[1..] == Repeated(name, values[1..]);
      RepeatedRead(name, values[1..]);
    }
  }

  // ---- Labels ----

  function Trimmed(lines: seq<string>): seq<string>
    requires lines != []
  {
    if lines[|lines| - 1] == [] then lines[..|lines| - 1] else lines
  }

  lemma JoinCons(line: string, rest: seq<string>)
    ensures JoinLines([line] + rest) == EndLine(line) + JoinLines(rest)
  {
    assert ([line] + rest)[1..] == rest;
  }

  lemma EndedCons(front: string, rest: string)
    requires rest != []
    ensures front + Ended(rest) == Ended(front + rest)
  {
    assert (front + rest)[|front + rest| - 1] == rest[|rest| - 1];
    assert front + (rest + "\n") == front + rest + "\n";
  }

  lemma TrimmedCons(line: string, lines: seq<string>)
    requires lines != []
    ensures Trimmed([line] + lines) == [line] + Trimmed(lines)
  {
  }

  /** A line before the rest of a text. */
  lemma LineThenRest(line: string, rest: string)
    requires '\n' !in line && rest != [] && JoinLines(Trimmed(SplitMore(rest))) == Ended(rest)
    ensures JoinLines(Trimmed([line] + SplitMore(rest))) == Ended(line + "\n" + rest)
  {
    TrimmedCons(line, SplitMore(rest));
    JoinCons(line, Trimmed(SplitMore(rest)));
    LineEnds(line);
    EndedCons(line + "\n", rest);
  }

  lemma LineEnds(line: string)
    requires '\n' !in line
    ensures EndLine(line) == line + "\n"
  {
    if line != [] { assert line[|line| - 1] in line; }
  }

  /** A line with nothing behind its newline. */
  lemma LineAlone(line: string)
    requires '\n' !in line
    ensures JoinLines(Trimmed([line] + SplitMore([]))) == line + "\n"
  {
    assert SplitMore([]) == [[]];
    assert Trimmed([line] + [[]]) == [line];
    OneLine(line);
    LineEnds(line);
  }

  lemma {:induction false} LinesJoined(s: string)
    requires s != []
    ensures JoinLines(Trimmed(SplitMore(s))) == Ended(s)
    decreases |s|
  {
    var k := Newline(s);
    if k == |s| {
      assert s == s[..k];
      assert s[|s| - 1] in s;
      assert Trimmed([s]) == [s];
      OneLine(s);
    } else {
      var line, rest := s[..k], s[k + 1..];
      assert line + "\n" + rest == s;
      if rest == [] {
        LineAlone(line);
        assert s[|s| - 1] == '\n';
      } else {
        LinesJoined(rest);
        LineThenRest(line, rest);
      }
    }
  }

  lemma OneLine(line: string)
    ensures JoinLines([line]) == EndLine(line)
  {
    assert [line][1..] == [];
  }

  lemma {:induction false} LabelRead(s: string)
    ensures JoinLines(LabelLines(s)) == Ended(s)
  {
    if s != [] { LinesJoined(s); }
  }

  // ---- One field ----

  lemma LinesRead(params: seq<Param>, lines: seq<string>)
    requires ParamChildren(TypesOf(LABEL), params).Done?
    ensures Contents(ParamChildren(TypesOf(LABEL), params).value + Repeated(LINE, lines), LINE) == lines
  {
    var p := ParamChildren(TypesOf(LABEL), params).value;
    ParamsPrinted(TypesOf(LABEL), params, LINE);
    FindNone(p, LINE);
    FindConcat(p, Repeated(LINE, lines), LINE);
    RepeatedRead(LINE, lines);
    assert [] + lines == lines;
  }

  lemma LabelField(f: ContactField, usable: set<Element>)
    requires EditOf(f, usable).Done? && Lookup(f.name) == Some(LABEL)
    ensures FieldOf(EditOf(f, usable).value.node) == Some(Canonical(f))
  {
    LinesRead(f.params, LabelLines(f.values[0]));
    LabelRead(f.values[0]);
  }

  lemma OrgRead(values: seq<string>)
    requires values != []
    ensures var v := [Child(ORGNAME, Some(values[0]))] + Repeated(ORGUNIT, values[1..]);
            && Find(v, ORGNAME) == Some(Child(ORGNAME, Some(values[0])))
            && [values[0]] + Contents(v, ORGUNIT) == values
  {
    var v := [Child(ORGNAME, Some(values[0]))] + Repeated(ORGUNIT, values[1..]);
    RepeatedRead(ORGUNIT, values[1..]);
    assert v[1..] == Repeated(ORGUNIT, values[1..]);
  }

  lemma {:induction false} OrgNode(v: seq<Child>, values: seq<string>)
    requires values != [] && Find(v, ORGNAME) == Some(Child(ORGNAME, Some(values[0])))
    requires [values[0]] + Contents(v, ORGUNIT) == values
    ensures FieldOf(Node(ORG, None, v)) == Some(ContactField(Lower(ORG), [], values))
  {
  }

  lemma OrgEdit(f: ContactField, usable: set<Element>)
    requires EditOf(f, usable).Done? && Lookup(f.name) == Some(ORG)
    ensures f.values != []
    ensures EditOf(f, usable).value.node
            == Node(ORG, None, [Child(ORGNAME, Some(f.values[0]))] + Repeated(ORGUNIT, f.values[1..]))
  {
    NoParams(f.params);
    var v := [Child(ORGNAME, Some(f.values[0]))] + Repeated(ORGUNIT, f.values[1..]);
    assert [] + v == v;
  }

  lemma OrgField(f: ContactField, usable: set<Element>)
    requires EditOf(f, usable).Done? && Lookup(f.name) == Some(ORG)
    ensures FieldOf(EditOf(f, usable).value.node) == Some(Canonical(f))
  {
    OrgEdit(f, usable);
    OrgRead(f.values);
    OrgNode([Child(ORGNAME, Some(f.values[0]))] + Repeated(ORGUNIT, f.values[1..]), f.values);
  }

  lemma NoParams(params: seq<Param>)
    requires ParamChildren([], params).Done?
    ensures params == [] && ParamChildren([], params) == Done([])
  {
  }

  lemma SimpleField(f: ContactField, usable: set<Element>)
    requires EditOf(f, usable).Done?
    requires var b := BehaviourOf(Lookup(f.name).value); b == Some(Simple) || b == Some(SimpleOnce)
    ensures FieldOf(EditOf(f, usable).value.node) == Some(Canonical(f))
  {
    assert f.values == [f.values[0]];
  }

  lemma {:induction false} FieldRoundTrip(f: ContactField, usable: set<Element>)
    requires EditOf(f, usable).Done?
    ensures EditFor(EditOf(f, usable).value, f)
  {
    var e := Lookup(f.name).value;
    match BehaviourOf(e).value
    case Simple => SimpleField(f, usable);
    case SimpleOnce => SimpleField(f, usable);
    case Structured => StructuredRead(e, f.params, f.values);
    case StructuredOnce => StructuredRead(e, f.params, f.values);
    case Org => OrgField(f, usable);
    case Label => LabelField(f, usable);
  }

  /** The node of an edit reads back as the canonical form of the field. */
  predicate EditFor(edit: Edit, f: ContactField) {
    FieldOf(edit.node) == Some(Canonical(f)) && Canonical(f).name == Lower(edit.node.name) && edit.replace == OnceOnly(f)
  }

  // ---- A list of fields ----

  function RemoveFields(fields: seq<ContactField>, name: FieldName): seq<ContactField>
    decreases |fields|
  {
    if fields == [] then []
    else if fields[0].name == name then RemoveFields(fields[1..], name)
    else [fields[0]] + RemoveFields(fields[1..], name)
  }

  /** The fields of a name. */
  function FieldsNamed(fields: seq<ContactField>, name: FieldName): seq<ContactField>
    decreases |fields|
  {
    if fields == [] then []
    else if fields[0].name == name then [fields[0]] + FieldsNamed(fields[1..], name)
    else FieldsNamed(fields[1..], name)
  }

  /** A field that may occur once is added to a list: it supersedes those of its name, but one that is
      there already keeps its place. */
  function PutOnce(fields: seq<ContactField>, f: ContactField): seq<ContactField> {
    if FieldsNamed(fields, f.name) == [f] then fields else RemoveFields(fields, f.name) + [f]
  }

  /** A list of fields added one by one, those marked `once` in this way. */
  function Superseded(fields: seq<ContactField>, once: seq<bool>): seq<ContactField>
    requires |once| == |fields|
    decreases |fields|
  {
    if fields == [] then []
    else
      var last := |fields| - 1;
      var front := Superseded(fields[..last], once[..last]);
      if once[last] then PutOnce(front, fields[last]) else front + [fields[last]]
  }

  function AllCanonical(fields: seq<ContactField>): seq<ContactField> {
    seq(|fields|, k requires 0 <= k < |fields| => Canonical(fields[k]))
  }

  function AllOnce(fields: seq<ContactField>): seq<bool> {
    seq(|fields|, k requires 0 <= k < |fields| => OnceOnly(fields[k]))
  }

  /** The fields in canonical form; one that may occur once supersedes different ones before it. */
  function Expected(fields: seq<ContactField>): seq<ContactField> {
    Superseded(AllCanonical(fields), AllOnce(fields))
  }

  lemma {:induction false} ParseCons(n: Node, rest: seq<Node>)
    ensures Parse([n] + rest) == if FieldOf(n).Some? then [FieldOf(n).value] + Parse(rest) else Parse(rest)
    decreases |rest|
  {
    var v := [n] + rest;
    if rest == [] {
      assert v[..0] == [];
    } else {
      var last := |rest| - 1;
      ParseCons(n, rest[..last]);
      assert v[..|v| - 1] == [n] + rest[..last] && v[|v| - 1] == rest[last];
    }
  }

  lemma FieldName(n: Node)
    ensures FieldOf(n).Some? ==> FieldOf(n).value.name == Lower(n.name)
  {
  }

  lemma {:induction false} ParseRemove(v: seq<Node>, e: Element)
    ensures Parse(Remove(v, e)) == RemoveFields(Parse(v), Lower(e))
    decreases |v|
  {
    if v != [] {
      assert v == [v[0]] + v[1..];
      ParseCons(v[0], v[1..]);
      ParseRemove(v[1..], e);
      FieldName(v[0]);
      if v[0].name != e { ParseCons(v[0], Remove(v[1..], e)); }
    }
  }

  /** A node of a name that may occur once, as it is printed for a field: what is read from it tells
      everything about it. */
  predicate Exact(n: Node) {
    Once(n.name) ==>
      && FieldOf(n).Some?
      && var values := FieldOf(n).value.values;
         if n.name == FN then |values| == 1 && n == Node(FN, Some(values[0]), [])
         else |values| == |ElementsOf(n.name)| && n == Node(n.name, None, ValueChildren(ElementsOf(n.name), values))
  }

  predicate AllExact(v: seq<Node>) { forall k :: 0 <= k < |v| ==> Exact(v[k]) }

  lemma {:induction false} ExactEqual(n: Node, m: Node)
    requires Exact(n) && Exact(m) && Once(n.name) && n.name == m.name
    ensures FieldOf(n) == FieldOf(m) <==> n == m
  {
  }

  lemma {:induction false} ParseNamed(v: seq<Node>, e: Element)
    ensures Parse(Named(v, e)) == FieldsNamed(Parse(v), Lower(e))
    decreases |v|
  {
    if v != [] {
      assert v == [v[0]] + v[1..];
      ParseCons(v[0], v[1..]);
      ParseNamed(v[1..], e);
      FieldName(v[0]);
      if v[0].name == e { ParseCons(v[0], Named(v[1..], e)); }
    }
  }

  lemma {:induction false} NamedExact(v: seq<Node>, e: Element)
    requires AllExact(v)
    ensures AllExact(Named(v, e)) && forall k :: 0 <= k < |Named(v, e)| ==> Named(v, e)[k].name == e
    decreases |v|
  {
    if v != [] { NamedExact(v[1..], e); }
  }

  predicate Reads(n: Node) { FieldOf(n).Some? }

  lemma {:induction false} ParseAll(v: seq<Node>)
    requires forall k :: 0 <= k < |v| ==> Reads(v[k])
    ensures |Parse(v)| == |v| && forall k :: 0 <= k < |v| ==> FieldOf(v[k]) == Some(Parse(v)[k])
    decreases |v|
  {
    if v != [] {
      var front, last := v[..|v| - 1], v[|v| - 1];
      ParseAll(front);
      ParseSnoc(front, last);
      assert v == front + [last];
      assert Reads(last);
    }
  }

  lemma {:induction false} OneReads(these: seq<Node>, fields: seq<ContactField>, n: Node, f: ContactField)
    requires AllExact(these) && Exact(n) && Once(n.name) && FieldOf(n) == Some(f) && |these| == |fields|
    requires forall k :: 0 <= k < |these| ==> these[k].name == n.name && FieldOf(these[k]) == Some(fields[k])
    ensures these == [n] <==> fields == [f]
  {
    if |these| == 1 {
      ExactEqual(these[0], n);
      assert these == [these[0]] && fields == [fields[0]];
    }
  }

  /** A node is the only one of its name if and only if its field is. */
  lemma {:induction false} OnlyOne(v: seq<Node>, n: Node)
    requires AllExact(v) && Exact(n) && Once(n.name)
    ensures Named(v, n.name) == [n] <==> FieldsNamed(Parse(v), Lower(n.name)) == [FieldOf(n).value]
  {
    var these := Named(v, n.name);
    ParseNamed(v, n.name);
    NamedExact(v, n.name);
    ParseAll(these);
    OneReads(these, Parse(these), n, FieldOf(n).value);
  }

  lemma {:induction false} ClearExact(v: seq<Node>)
    ensures AllExact(Clear(v))
    decreases |v|
  {
    if v != [] { ClearExact(v[1..]); }
  }

  lemma {:induction false} RemoveExact(v: seq<Node>, e: Element)
    requires AllExact(v)
    ensures AllExact(Remove(v, e))
    decreases |v|
  {
    if v != [] { RemoveExact(v[1..], e); }
  }

  lemma {:induction false} EditExact(f: ContactField, usable: set<Element>)
    requires EditOf(f, usable).Done?
    ensures Exact(EditOf(f, usable).value.node) && (OnceOnly(f) ==> Once(EditOf(f, usable).value.node.name))
  {
    if OnceOnly(f) {
      NoParams(f.params);
      FieldRoundTrip(f, usable);
      var e, n := Lookup(f.name).value, EditOf(f, usable).value.node;
      assert Canonical(f).values == f.values;
      if e != FN { assert [] + ValueChildren(ElementsOf(e), f.values) == ValueChildren(ElementsOf(e), f.values); }
    }
  }

  lemma {:induction false} ParseClear(v: seq<Node>)
    ensures Parse(Clear(v)) == []
    decreases |v|
  {
    if v != [] {
      ParseClear(v[1..]);
      if v[0].name == PHOTO { ParseCons(v[0], Clear(v[1..])); }
    }
  }

  lemma ParseSnoc(v: seq<Node>, n: Node)
    ensures Parse(v + [n]) == if FieldOf(n).Some? then Parse(v) + [FieldOf(n).value] else Parse(v)
  {
    assert (v + [n])[..|v|] == v;
  }

  /** If all goes well, every outcome is an edit and they are kept in order. */
  lemma {:induction false} SequenceDone(outcomes: seq<Outcome<Edit>>)
    requires Sequence(outcomes).Done?
    ensures |Sequence(outcomes).value| == |outcomes|
    ensures forall k :: 0 <= k < |outcomes| ==> outcomes[k] == Done(Sequence(outcomes).value[k])
    decreases |outcomes|
  {
    if outcomes != [] { SequenceDone(outcomes[..|outcomes| - 1]); }
  }

  lemma Accepted(fields: seq<ContactField>, usable: set<Element>, k: nat)
    requires Edits(fields, usable).Done? && k < |fields|
    ensures |Edits(fields, usable).value| == |fields|
    ensures EditOf(fields[k], usable) == Done(Edits(fields, usable).value[k])
  {
    SequenceDone(EditEach(fields, usable));
    assert EditEach(fields, usable)[k] == EditOf(fields[k], usable);
  }

  /** An edit reads back as a given field. */
  predicate ReadsAs(edit: Edit, f: ContactField, once: bool) {
    && FieldOf(edit.node) == Some(f) && f.name == Lower(edit.node.name) && edit.replace == once
    && Exact(edit.node) && (once ==> Once(edit.node.name))
  }

  /** The vCard once cleared and given some of its fields. */
  function Edited(vcard: seq<Node>, edits: seq<Edit>): seq<Node> {
    if edits == [] then Clear(vcard) else ApplyEdit(Edited(vcard, edits[..|edits| - 1]), edits[|edits| - 1])
  }

  lemma {:induction false} AppliedRead(vcard: seq<Node>, edits: seq<Edit>, fields: seq<ContactField>, once: seq<bool>)
    requires |edits| == |fields| == |once| && forall k :: 0 <= k < |fields| ==> ReadsAs(edits[k], fields[k], once[k])
    ensures Parse(Edited(vcard, edits)) == Superseded(fields, once) && AllExact(Edited(vcard, edits))
    decreases |fields|
  {
    if fields == [] {
      ParseClear(vcard);
      ClearExact(vcard);
    } else {
      var last := |fields| - 1;
      AppliedRead(vcard, edits[..last], fields[..last], once[..last]);
      AppliedStep(Edited(vcard, edits[..last]), edits[last], fields[last], once[last]);
    }
  }

  lemma {:induction false} AppliedStep(v: seq<Node>, edit: Edit, f: ContactField, once: bool)
    requires ReadsAs(edit, f, once) && AllExact(v)
    ensures Parse(ApplyEdit(v, edit)) == if once then PutOnce(Parse(v), f) else Parse(v) + [f]
    ensures AllExact(ApplyEdit(v, edit))
  {
    var e := edit.node.name;
    ParseRemove(v, e);
    RemoveExact(v, e);
    if once { OnlyOne(v, edit.node); }
    ParseSnoc(if once then Remove(v, e) else v, edit.node);
  }

  /** The commands but the last come to clearing and putting in the fields. */
  lemma {:induction false} PutsPerformed(
    vcard: seq<Node>, edits: seq<Edit>, usable: set<Element>, alias: Option<string>)
    ensures PerformAll(vcard, [ClearFields] + Puts(edits), usable, alias) == Edited(vcard, edits)
    decreases |edits|
  {
    var cmds := [ClearFields] + Puts(edits);
    if edits == [] {
      assert cmds[..0] == [];
    } else {
      var last := |edits| - 1;
      PutsPerformed(vcard, edits[..last], usable, alias);
      assert cmds[..|cmds| - 1] == [ClearFields] + Puts(edits[..last]);
    }
  }

  /** The field under which the alias is read. */
  function AliasField(usable: set<Element>, alias: string): ContactField {
    ContactField(Lower(AliasElement(usable)), [], [alias])
  }

  predicate HasField(fields: seq<ContactField>, name: FieldName) {
    exists k :: 0 <= k < |fields| && fields[k].name == name
  }

  /** What is read once the alias has been seen to: it is added if it is known and usable and no field
      has its place. */
  function WithAlias(fields: seq<ContactField>, usable: set<Element>, alias: Option<string>): seq<ContactField> {
    if alias.Some? && AliasElement(usable) in usable && !HasField(fields, Lower(AliasElement(usable)))
    then fields + [AliasField(usable, alias.value)] else fields
  }

  lemma HasFieldSnoc(fields: seq<ContactField>, f: ContactField, name: FieldName)
    ensures HasField(fields + [f], name) <==> HasField(fields, name) || f.name == name
  {
    var all := fields + [f];
    if HasField(fields, name) {
      var k :| 0 <= k < |fields| && fields[k].name == name;
      assert all[k].name == name;
    }
    assert all[|fields|] == f;
  }

  lemma {:induction false} AliasRead(v: seq<Node>, e: Element)
    requires e == NICKNAME || e == FN
    ensures HasNode(v, e) <==> HasField(Parse(v), Lower(e))
    decreases |v|
  {
    if v != [] {
      var last := |v| - 1;
      AliasRead(v[..last], e);
      FieldName(v[last]);
      if FieldOf(v[last]).Some? { HasFieldSnoc(Parse(v[..last]), FieldOf(v[last]).value, Lower(e)); }
      assert v[last].name == e ==> FieldOf(v[last]).Some?;
      assert HasNode(v, e) <==> HasNode(v[..last], e) || v[last].name == e by { NodeSnoc(v, e); }
    }
  }

  lemma NodeSnoc(v: seq<Node>, e: Element)
    requires v != []
    ensures HasNode(v, e) <==> HasNode(v[..|v| - 1], e) || v[|v| - 1].name == e
  {
    var front := v[..|v| - 1];
    if HasNode(front, e) {
      var k :| 0 <= k < |front| && front[k].name == e;
      assert v[k].name == e;
    }
    if HasNode(v, e) {
      var k :| 0 <= k < |v| && v[k].name == e;
      assert k < |front| ==> front[k].name == e;
    }
  }

  lemma {:induction false} RemoveNone(v: seq<Node>, e: Element)
    requires forall k :: 0 <= k < |v| ==> v[k].name != e
    ensures Remove(v, e) == v && Named(v, e) == []
    decreases |v|
  {
    if v != [] { RemoveNone(v[1..], e); }
  }

  lemma {:induction false} AliasNodeRead(e: Element, alias: string)
    requires e == NICKNAME || e == FN
    ensures FieldOf(Node(e, Some(alias), [])) == Some(ContactField(Lower(e), [], [alias]))
  {
  }

  lemma {:induction false} AliasAppended(v: seq<Node>, e: Element, alias: string)
    requires (e == NICKNAME || e == FN) && !HasNode(v, e)
    ensures Parse(ApplyEdit(v, Edit(true, Node(e, Some(alias), [])))) == Parse(v) + [ContactField(Lower(e), [], [alias])]
  {
    AliasNodeRead(e, alias);
    RemoveNone(v, e);
    ParseSnoc(v, Node(e, Some(alias), []));
  }

  lemma {:induction false} FixAliasRead(v: seq<Node>, usable: set<Element>, alias: Option<string>)
    ensures Parse(FixAlias(v, usable, alias)) == WithAlias(Parse(v), usable, alias)
  {
    var e := AliasElement(usable);
    AliasRead(v, e);
    if !HasNode(v, e) && alias.Some? && e in usable { AliasAppended(v, e, alias.value); }
  }

  lemma AcceptedReads(fields: seq<ContactField>, usable: set<Element>, k: nat)
    requires Edits(fields, usable).Done? && k < |fields| == |Edits(fields, usable).value|
    ensures ReadsAs(Edits(fields, usable).value[k], AllCanonical(fields)[k], AllOnce(fields)[k])
  {
    Accepted(fields, usable, k);
    FieldRoundTrip(fields[k], usable);
    EditExact(fields[k], usable);
  }

  lemma {:induction false} EditsRead(vcard: seq<Node>, fields: seq<ContactField>, usable: set<Element>)
    requires Edits(fields, usable).Done?
    ensures Parse(Edited(vcard, Edits(fields, usable).value)) == Expected(fields)
  {
    var edits := Edits(fields, usable).value;
    SequenceDone(EditEach(fields, usable));
    forall k | 0 <= k < |fields| ensures ReadsAs(edits[k], AllCanonical(fields)[k], AllOnce(fields)[k]) {
      AcceptedReads(fields, usable, k);
    }
    AppliedRead(vcard, edits, AllCanonical(fields), AllOnce(fields));
  }

  lemma {:induction false} LastCommand(
    vcard: seq<Node>, cmds: seq<Command>, usable: set<Element>, alias: Option<string>)
    ensures PerformAll(vcard, cmds + [SetAlias], usable, alias)
            == FixAlias(PerformAll(vcard, cmds, usable, alias), usable, alias)
  {
    assert (cmds + [SetAlias])[..|cmds|] == cmds;
  }

  /** Whatever the vCard was before, a list of fields that is accepted reads back in canonical form, with
      the user's alias if that is known and the list says nothing of it. */
  lemma {:induction false} RoundTrip(
    vcard: seq<Node>, fields: seq<ContactField>, usable: set<Element>, alias: Option<string>)
    requires Commands(fields, usable).Done?
    ensures Parse(PerformAll(vcard, Commands(fields, usable).value, usable, alias))
            == WithAlias(Expected(fields), usable, alias)
  {
    var edits := Edits(fields, usable).value;
    LastCommand(vcard, [ClearFields] + Puts(edits), usable, alias);
    PutsPerformed(vcard, edits, usable, alias);
    EditsRead(vcard, fields, usable);
    FixAliasRead(Edited(vcard, edits), usable, alias);
  }

  // ---- When nothing changes ----

  /** No field that may occur once occurs again. */
  predicate NoRepeat(fields: seq<ContactField>) {
    forall i, j :: 0 <= i < j < |fields| && OnceOnly(fields[j]) ==> Canonical(fields[i]).name != Canonical(fields[j]).name
  }

  lemma {:induction false} RemoveAbsent(fields: seq<ContactField>, name: FieldName)
    requires forall k :: 0 <= k < |fields| ==> fields[k].name != name
    ensures RemoveFields(fields, name) == fields && FieldsNamed(fields, name) == []
    decreases |fields|
  {
    if fields != [] { RemoveAbsent(fields[1..], name); }
  }

  lemma {:induction false} NoneSuperseded(fields: seq<ContactField>, once: seq<bool>)
    requires |once| == |fields|
    requires forall i, j :: 0 <= i < j < |fields| && once[j] ==> fields[i].name != fields[j].name
    ensures Superseded(fields, once) == fields
    decreases |fields|
  {
    if fields != [] {
      var last := |fields| - 1;
      NoneSuperseded(fields[..last], once[..last]);
      if once[last] { RemoveAbsent(fields[..last], fields[last].name); }
      assert fields == fields[..last] + [fields[last]];
    }
  }

  lemma ExpectedAll(fields: seq<ContactField>)
    requires NoRepeat(fields)
    ensures Expected(fields) == AllCanonical(fields)
  {
    NoneSuperseded(AllCanonical(fields), AllOnce(fields));
  }

  /** The field is in canonical form: not one of the two that are renamed, the parameters in order (none
      for a label), and a label ended. */
  predicate Plain(f: ContactField) {
    Lookup(f.name).Some? &&
    var e := Lookup(f.name).value;
    && f.name != XJabber && f.name != XDesc
    && (IsStructured(e) ==> f.params == InOrder(TypesOf(e), f.params))
    && (e == LABEL && f.values != [] ==> f.params == [] && (f.values[0] == [] || f.values[0][|f.values[0]| - 1] == '\n'))
  }

  /** A field accepted comes back as it was if and only if it was plain. */
  lemma {:induction false} UnchangedIff(f: ContactField, usable: set<Element>)
    requires EditOf(f, usable).Done?
    ensures Canonical(f) == f <==> Plain(f)
  {
    var e := Lookup(f.name).value;
    if TypesOf(e) == [] && f.params != [] { assert ParamChildren([], f.params) == Invalid; }
    if e == LABEL { assert f.values == [f.values[0]]; }
  }

  /** A list of plain fields, none that may occur once repeated, comes back unchanged but for the alias. */
  lemma {:induction false} RoundTripExact(
    vcard: seq<Node>, fields: seq<ContactField>, usable: set<Element>, alias: Option<string>)
    requires Commands(fields, usable).Done? && NoRepeat(fields)
    requires forall k :: 0 <= k < |fields| ==> Plain(fields[k])
    ensures Parse(PerformAll(vcard, Commands(fields, usable).value, usable, alias)) == WithAlias(fields, usable, alias)
  {
    RoundTrip(vcard, fields, usable, alias);
    ExpectedAll(fields);
    PlainCanonical(fields, usable);
  }

  lemma {:induction false} PlainCanonical(fields: seq<ContactField>, usable: set<Element>)
    requires Edits(fields, usable).Done?
    requires forall k :: 0 <= k < |fields| ==> Plain(fields[k])
    ensures AllCanonical(fields) == fields
  {
    forall k | 0 <= k < |fields| ensures AllCanonical(fields)[k] == fields[k] {
      Accepted(fields, usable, k);
      UnchangedIff(fields[k], usable);
    }
  }

  // ---- What is accepted ----

  predicate KnownParams(types: seq<Element>, params: seq<Param>) {
    forall k :: 0 <= k < |params| ==> params[k].Type? && params[k].element in types
  }

  lemma {:induction false} ParamsAccepted(types: seq<Element>, params: seq<Param>)
    ensures ParamChildren(types, params).Done? <==> KnownParams(types, params)
    ensures !ParamChildren(types, params).Aborted?
    decreases |params|
  {
    if params != [] {
      ParamsAccepted(types, params[1..]);
      assert forall k :: 1 <= k < |params| ==> params[k] == params[1..][k - 1];
    }
  }

  /** The number of values a field must have. */
  predicate RightCount(e: Element, n: nat) {
    if IsStructured(e) then n == |ElementsOf(e)| else if e == ORG then n > 0 else n == 1
  }

  /** A field is accepted if and only if its name is known and usable, its parameters are those of the
      table and the number of values is right; the photo, which is in the table, aborts. */
  lemma {:induction false} AcceptedIff(f: ContactField, usable: set<Element>)
    ensures EditOf(f, usable).Aborted? <==> Lookup(f.name) == Some(PHOTO) && PHOTO in usable
    ensures EditOf(f, usable).Done? <==>
              && Lookup(f.name).Some? && Lookup(f.name).value in usable && Lookup(f.name).value != PHOTO
              && KnownParams(TypesOf(Lookup(f.name).value), f.params)
              && RightCount(Lookup(f.name).value, |f.values|)
  {
    if Lookup(f.name).Some? { ParamsAccepted(TypesOf(Lookup(f.name).value), f.params); }
  }
}
