/** The nodes of a vCard in terms of XEP-0054, with all names written out: what is printed for a field,
    what is read from anybody's nodes, and what becomes of the vCard there was. */
module VCardNodes {
  import opened Common
  import opened VCardSpec
  import opened VCardRoundTrip

  // ---- The names ----

  const SimpleElements := {FN, BDAY, MAILER, TZ, TITLE, ROLE, NOTE, PRODID, REV, SORT_STRING, UID, URL, NICKNAME, JABBERID, DESC}

  const AddressKinds := [HOME, WORK, POSTAL, PARCEL, DOM, INTL, PREF]
  const PhoneKinds := [HOME, WORK, VOICE, FAX, PAGER, MSG, CELL, VIDEO, BBS, MODEM, ISDN, PCS, PREF]
  const MailKinds := [HOME, WORK, INTERNET, PREF, X400]

  /** The children of a structured field, in the order of its values, and its type-parameters. */
  ghost predicate LaidOut(e: Element, names: seq<Element>, kinds: seq<Element>) {
    || (e == N && names == [FAMILY, GIVEN, MIDDLE, PREFIX, SUFFIX] && kinds == [])
    || (e == ADR && names == [POBOX, EXTADD, STREET, LOCALITY, REGION, PCODE, CTRY] && kinds == AddressKinds)
    || (e == GEO && names == [LAT, LON] && kinds == [])
    || (e == TEL && names == [NUMBER] && kinds == PhoneKinds)
    || (e == EMAIL && names == [USERID] && kinds == MailKinds)
  }

  /** How an element is called on the Telepathy side. */
  predicate IsNameOf(name: FieldName, e: Element) {
    name == if e == JABBERID then XJabber else if e == DESC then XDesc else Lower(e)
  }

  predicate Only(params: seq<Param>, kinds: seq<Element>) {
    forall k :: 0 <= k < |params| ==> params[k].Type? && params[k].element in kinds
  }

  /** The type-parameters and the number of values that a field may have. */
  predicate Takes(e: Element, params: seq<Param>, n: nat) {
    || (e in SimpleElements && params == [] && n == 1)
    || (e == N && params == [] && n == 5)
    || (e == ADR && Only(params, AddressKinds) && n == 7)
    || (e == GEO && params == [] && n == 2)
    || (e == TEL && Only(params, PhoneKinds) && n == 1)
    || (e == EMAIL && Only(params, MailKinds) && n == 1)
    || (e == LABEL && Only(params, AddressKinds) && n == 1)
    || (e == ORG && params == [] && n >= 1)
  }

  lemma {:induction false} NoKinds(params: seq<Param>)
    ensures KnownParams([], params) <==> params == []
  {
    if params != [] { assert params[0].Type? ==> params[0].element !in []; }
  }

  lemma {:induction false} TakesStructured(e: Element, params: seq<Param>, n: nat)
    requires e in {N, ADR, GEO, TEL, EMAIL}
    ensures Takes(e, params, n) <==> KnownParams(TypesOf(e), params) && RightCount(e, n)
    ensures BehaviourOf(e).Some?
  {
    NoKinds(params);
  }

  lemma {:induction false} SimpleIs(e: Element)
    ensures e in SimpleElements <==> BehaviourOf(e) == Some(Simple) || BehaviourOf(e) == Some(SimpleOnce)
    ensures e in SimpleElements || e == ORG ==> TypesOf(e) == []
  {
  }

  lemma {:induction false} TakesSimple(e: Element, params: seq<Param>, n: nat)
    requires e in SimpleElements
    ensures BehaviourOf(e).Some? && e != PHOTO
    ensures Takes(e, params, n) <==> KnownParams(TypesOf(e), params) && RightCount(e, n)
  {
    NoKinds(params);
    SimpleIs(e);
    assert !IsStructured(e) && e != ORG && e != LABEL;
  }

  lemma {:induction false} TakesNone(e: Element, params: seq<Param>, n: nat)
    requires e !in SimpleElements && e !in {N, ADR, GEO, TEL, EMAIL, LABEL, ORG}
    ensures !Takes(e, params, n) && (BehaviourOf(e).None? || e == PHOTO)
  {
  }

  lemma {:induction false} TakesSpecial(e: Element, params: seq<Param>, n: nat)
    requires e == LABEL || e == ORG
    ensures BehaviourOf(e).Some?
    ensures Takes(e, params, n) <==> KnownParams(TypesOf(e), params) && RightCount(e, n)
  {
    NoKinds(params);
  }

  lemma {:induction false} TakesIs(e: Element, params: seq<Param>, n: nat)
    ensures Takes(e, params, n) <==>
              BehaviourOf(e).Some? && e != PHOTO && KnownParams(TypesOf(e), params) && RightCount(e, n)
  {
    if e in {N, ADR, GEO, TEL, EMAIL} { TakesStructured(e, params, n); }
    else if e in SimpleElements { TakesSimple(e, params, n); }
    else if e == LABEL || e == ORG { TakesSpecial(e, params, n); }
    else { TakesNone(e, params, n); }
  }

  /** A field is accepted if and only if its name is that of an element the server takes and it has
      parameters and values as that element does. */
  lemma {:induction false} AcceptedExactly(f: ContactField, usable: set<Element>)
    ensures EditOf(f, usable).Done? <==> exists e :: IsNameOf(f.name, e) && e in usable && Takes(e, f.params, |f.values|)
  {
    AcceptedIff(f, usable);
    forall e | IsNameOf(f.name, e) ensures Takes(e, f.params, |f.values|) ==> Lookup(f.name) == Some(e) {
      TakesIs(e, f.params, |f.values|);
    }
    if Lookup(f.name).Some? {
      assert IsNameOf(f.name, Lookup(f.name).value);
      TakesIs(Lookup(f.name).value, f.params, |f.values|);
    }
  }

  /** The name as displayed, the structured name and the position replace those that are there; the rest
      is added. */
  lemma {:induction false} ReplacesIff(f: ContactField, usable: set<Element>)
    requires EditOf(f, usable).Done?
    ensures var edit := EditOf(f, usable).value;
            IsNameOf(f.name, edit.node.name) && (edit.replace <==> edit.node.name in {FN, N, GEO})
  {
  }

  lemma {:induction false} SequenceIff(outcomes: seq<Outcome<Edit>>)
    ensures Sequence(outcomes).Done? <==> forall k :: 0 <= k < |outcomes| ==> outcomes[k].Done?
    ensures forall k :: 0 <= k < |outcomes| && !outcomes[k].Done? && (forall j :: 0 <= j < k ==> outcomes[j].Done?) ==>
              (Sequence(outcomes).Aborted? <==> outcomes[k].Aborted?)
    decreases |outcomes|
  {
    if outcomes != [] {
      var last := |outcomes| - 1;
      SequenceIff(outcomes[..last]);
      assert forall k :: 0 <= k < last ==> outcomes[..last][k] == outcomes[k];
    }
  }

  /** A list of fields is set if and only if each of them is accepted; otherwise the first that is not
      decides whether that is an error or, for a photo, an abort. */
  lemma {:induction false} SetIff(fields: seq<ContactField>, usable: set<Element>)
    ensures Commands(fields, usable).Done? <==> forall k :: 0 <= k < |fields| ==> EditOf(fields[k], usable).Done?
    ensures forall k :: 0 <= k < |fields| && !EditOf(fields[k], usable).Done?
                        && (forall j :: 0 <= j < k ==> EditOf(fields[j], usable).Done?) ==>
              (Commands(fields, usable).Aborted? <==> IsPhoto(fields[k], usable))
  {
    var outcomes := EditEach(fields, usable);
    SequenceIff(outcomes);
    assert forall k :: 0 <= k < |fields| ==> outcomes[k] == EditOf(fields[k], usable);
    forall k | 0 <= k < |fields| ensures EditOf(fields[k], usable).Aborted? <==> IsPhoto(fields[k], usable) {
      AcceptedIff(fields[k], usable);
    }
  }

  predicate IsPhoto(f: ContactField, usable: set<Element>) { f.name == Lower(PHOTO) && PHOTO in usable }

  // ---- What is printed ----

  predicate HasChild(children: seq<Child>, name: Element) { exists k :: 0 <= k < |children| && children[k].name == name }

  /** There is a child of the name, and any such has the text. */
  predicate Holds(children: seq<Child>, name: Element, text: string) {
    HasChild(children, name) && forall k :: 0 <= k < |children| && children[k].name == name ==> children[k].content == Some(text)
  }

  lemma {:induction false} ParamsAre(types: seq<Element>, params: seq<Param>)
    requires ParamChildren(types, params).Done?
    ensures var p := ParamChildren(types, params).value;
            |p| == |params| && forall k :: 0 <= k < |p| ==> params[k] == Type(p[k].name) && p[k].content.None? && p[k].name in types
    decreases |params|
  {
    if params != [] { ParamsAre(types, params[1..]); }
  }

  lemma {:induction false} TableIs(e: Element, names: seq<Element>, kinds: seq<Element>)
    requires LaidOut(e, names, kinds)
    ensures IsStructured(e) && ElementsOf(e) == names && TypesOf(e) == kinds
  {
  }

  lemma {:induction false} PrintedChildren(
    p: seq<Child>, params: seq<Param>, kinds: seq<Element>, names: seq<Element>, values: seq<string>)
    requires |names| == |values| && Distinct(names) && forall i :: 0 <= i < |names| ==> names[i] !in kinds
    requires |p| == |params| && forall k :: 0 <= k < |p| ==> params[k] == Type(p[k].name) && p[k].name in kinds
    ensures var children := p + ValueChildren(names, values);
            && (forall i :: 0 <= i < |names| ==> Holds(children, names[i], values[i]))
            && (forall t :: t !in names ==> (HasChild(children, t) <==> t in kinds && Type(t) in params))
  {
    var children := p + ValueChildren(names, values);
    forall i | 0 <= i < |names| ensures Holds(children, names[i], values[i]) {
      assert children[|p| + i] == Child(names[i], Some(values[i]));
    }
    forall t | t !in names ensures HasChild(children, t) <==> t in kinds && Type(t) in params {
      if Type(t) in params {
        var k :| 0 <= k < |params| && params[k] == Type(t);
        assert children[k].name == t;
      }
    }
  }

  lemma {:induction false} StructuredNode(f: ContactField, usable: set<Element>, e: Element)
    requires EditOf(f, usable).Done? && Lookup(f.name) == Some(e) && IsStructured(e)
    ensures ParamChildren(TypesOf(e), f.params).Done? && |f.values| == |ElementsOf(e)|
    ensures EditOf(f, usable).value.node
            == Node(e, None, ParamChildren(TypesOf(e), f.params).value + ValueChildren(ElementsOf(e), f.values))
  {
  }

  /** The node of a structured field: the child of each name holds the value of its own index, and besides
      there is a child for exactly the type-parameters given. */
  lemma {:induction false} StructuredPrinted(f: ContactField, usable: set<Element>, names: seq<Element>, kinds: seq<Element>)
    requires EditOf(f, usable).Done? && Lookup(f.name).Some? && LaidOut(Lookup(f.name).value, names, kinds)
    ensures var n := EditOf(f, usable).value.node;
            && n.name == Lookup(f.name).value && n.content.None? && |f.values| == |names|
            && (forall i :: 0 <= i < |names| ==> Holds(n.children, names[i], f.values[i]))
            && (forall t :: t !in names ==> (HasChild(n.children, t) <==> t in kinds && Type(t) in f.params))
  {
    var e := Lookup(f.name).value;
    TableIs(e, names, kinds);
    TableDisjoint(e);
    StructuredNode(f, usable, e);
    ParamsAre(kinds, f.params);
    PrintedChildren(ParamChildren(kinds, f.params).value, f.params, kinds, names, f.values);
  }

  /** The node of an organisation: its name, then its units in order. */
  lemma {:induction false} OrgPrinted(f: ContactField, usable: set<Element>)
    requires EditOf(f, usable).Done? && f.name == Lower(ORG)
    ensures var n := EditOf(f, usable).value.node;
            && n.name == ORG && n.content.None? && |n.children| == |f.values|
            && forall i :: 0 <= i < |f.values| ==> n.children[i] == Child(if i == 0 then ORGNAME else ORGUNIT, Some(f.values[i]))
  {
    OrgEdit(f, usable);
  }

  lemma {:induction false} LabelNode(f: ContactField, usable: set<Element>, edit: Edit)
    requires EditOf(f, usable) == Done(edit) && f.name == Lower(LABEL)
    ensures |f.values| == 1 && ParamChildren(AddressKinds, f.params).Done?
    ensures edit.node
            == Node(LABEL, None, ParamChildren(AddressKinds, f.params).value + Repeated(LINE, LabelLines(f.values[0])))
  {
  }

  /** The parameters of a label, then its lines. */
  predicate IsLabel(n: Node, params: seq<Param>, lines: seq<string>) {
    && n.name == LABEL && n.content.None? && |n.children| == |params| + |lines|
    && (forall i :: 0 <= i < |params| ==> params[i] == Type(n.children[i].name))
    && (forall i :: 0 <= i < |lines| ==> n.children[|params| + i] == Child(LINE, Some(lines[i])))
  }

  lemma {:induction false} LabelIs(p: seq<Child>, params: seq<Param>, lines: seq<string>)
    requires |p| == |params| && forall k :: 0 <= k < |p| ==> params[k] == Type(p[k].name)
    ensures IsLabel(Node(LABEL, None, p + Repeated(LINE, lines)), params, lines)
  {
  }

  /** ... of a label: its parameters, then its lines. */
  lemma {:induction false} LabelPrinted(f: ContactField, usable: set<Element>, edit: Edit, lines: seq<string>)
    requires EditOf(f, usable) == Done(edit) && f.name == Lower(LABEL) && f.values != [] && lines == LabelLines(f.values[0])
    ensures IsLabel(edit.node, f.params, lines)
  {
    LabelNode(f, usable, edit);
    LabelWith(f.params, lines, edit.node);
  }

  lemma {:induction false} LabelWith(params: seq<Param>, lines: seq<string>, n: Node)
    requires ParamChildren(AddressKinds, params).Done?
    requires n == Node(LABEL, None, ParamChildren(AddressKinds, params).value + Repeated(LINE, lines))
    ensures IsLabel(n, params, lines)
  {
    ParamsAre(AddressKinds, params);
    LabelIs(ParamChildren(AddressKinds, params).value, params, lines);
  }

  /** ... of a simple field: its text. */
  lemma {:induction false} SimplePrinted(f: ContactField, usable: set<Element>)
    requires EditOf(f, usable).Done? && Lookup(f.name).value in SimpleElements
    ensures |f.values| == 1 && EditOf(f, usable).value.node == Node(Lookup(f.name).value, Some(f.values[0]), [])
  {
    NoParams(f.params);
  }

  // ---- What is read ----

  /** A child that is missing stands for an empty text. */
  predicate Reads(children: seq<Child>, name: Element, text: string) {
    Holds(children, name, text) || (!HasChild(children, name) && text == "")
  }

  lemma {:induction false} FindIs(children: seq<Child>, name: Element)
    ensures Find(children, name).None? <==> !HasChild(children, name)
    ensures Find(children, name).Some? ==> Find(children, name).value in children && Find(children, name).value.name == name
    decreases |children|
  {
    if children != [] {
      FindIs(children[1..], name);
      if k :| 0 <= k < |children| && children[k].name == name { assert k > 0 ==> children[1..][k - 1] == children[k]; }
      if k :| 0 <= k < |children[1..]| && children[1..][k].name == name { assert children[k + 1] == children[1..][k]; }
    }
  }

  lemma {:induction false} ValuesAre(names: seq<Element>, children: seq<Child>, values: seq<string>)
    requires |names| == |values| && forall i :: 0 <= i < |names| ==> Reads(children, names[i], values[i])
    ensures ValuesFound(names, children) == values
    decreases |names|
  {
    if names != [] {
      FindIs(children, names[0]);
      assert Reads(children, names[0], values[0]);
      ValuesAre(names[1..], children, values[1..]);
      assert values == [values[0]] + values[1..];
    }
  }

  lemma {:induction false} KindsAre(kinds: seq<Element>, children: seq<Child>)
    ensures var params := ParamsFound(kinds, children);
            && (forall t :: Type(t) in params <==> t in kinds && HasChild(children, t))
            && (forall k :: 0 <= k < |params| ==> params[k].Type?)
    decreases |kinds|
  {
    if kinds != [] {
      FindIs(children, kinds[0]);
      KindsAre(kinds[1..], children);
    }
  }

  lemma {:induction false} StructuredReads(n: Node)
    requires IsStructured(n.name)
    ensures FieldOf(n) == Some(StructuredField(n))
  {
  }

  /** Anybody's node of a structured field, its children in any order, reads as the texts of its
      children in the order of the names, empty for those missing, with the type-parameters for which
      there is a child. */
  lemma {:induction false} StructuredForeign(n: Node, names: seq<Element>, kinds: seq<Element>, values: seq<string>)
    requires LaidOut(n.name, names, kinds) && |values| == |names|
    requires forall i :: 0 <= i < |names| ==> Reads(n.children, names[i], values[i])
    ensures var f := FieldOf(n);
            && f.Some? && f.value.name == Lower(n.name) && f.value.values == values
            && (forall t :: Type(t) in f.value.params <==> t in kinds && HasChild(n.children, t))
            && Only(f.value.params, kinds)
  {
    TableIs(n.name, names, kinds);
    StructuredReads(n);
    ValuesAre(names, n.children, values);
    KindsAre(kinds, n.children);
    var params := ParamsFound(kinds, n.children);
    forall k | 0 <= k < |params| ensures params[k].Type? && params[k].element in kinds {
      assert params[k] in params && params[k] == Type(params[k].element);
    }
  }

  /** The texts of the children of a name, in order. */
  function TextsOf(children: seq<Child>, name: Element): seq<string> {
    if children == [] then []
    else
      var last := children[|children| - 1];
      TextsOf(children[..|children| - 1], name)
      + if last.name == name then [if last.content.Some? then last.content.value else ""] else []
  }

  lemma {:induction false} ContentsAre(children: seq<Child>, name: Element)
    ensures Contents(children, name) == TextsOf(children, name)
    decreases |children|
  {
    if children != [] {
      var front, last := children[..|children| - 1], children[|children| - 1];
      ContentsAre(front, name);
      assert children == front + [last];
      FindConcat(front, [last], name);
      assert [last][1..] == [];
    }
  }

  /** ... of an organisation as the first of its names and its units in order, of a label as its lines. */
  lemma {:induction false} OrgForeign(n: Node)
    requires n.name == ORG
    ensures var names := TextsOf(n.children, ORGNAME);
            FieldOf(n) == if names == [] then None else Some(ContactField(Lower(ORG), [], [names[0]] + TextsOf(n.children, ORGUNIT)))
  {
    ContentsAre(n.children, ORGUNIT);
    ContentsAre(n.children, ORGNAME);
    FirstContent(n.children, ORGNAME);
  }

  lemma {:induction false} LabelForeign(n: Node)
    requires n.name == LABEL
    ensures FieldOf(n) == Some(ContactField(Lower(LABEL), [], [JoinLines(TextsOf(n.children, LINE))]))
  {
    ContentsAre(n.children, LINE);
  }

  /** ... of a simple field as its text; a photo and what is not known are passed over. */
  lemma {:induction false} OthersForeign(n: Node)
    requires n.name !in {N, ADR, GEO, TEL, EMAIL, LABEL, ORG}
    ensures FieldOf(n) ==
            if n.name in SimpleElements
            then Some(ContactField(Lower(n.name), [], if n.content.Some? then [n.content.value] else [])) else None
  {
  }

  lemma {:induction false} FirstContent(children: seq<Child>, name: Element)
    ensures Find(children, name).None? <==> Contents(children, name) == []
    ensures Find(children, name).Some? ==> Contents(children, name)[0] == Text(Find(children, name).value.content)
    decreases |children|
  {
    if children != [] { FirstContent(children[1..], name); }
  }

  // ---- What becomes of the vCard ----

  /** Setting the fields of a vCard leaves its photo, and of the rest nothing but the nodes of these
      fields and the alias. */
  ghost predicate KeepsPhoto(vcard: seq<Node>, v: seq<Node>) { Named(v, PHOTO) == Named(vcard, PHOTO) }

  lemma {:induction false} NamedSnoc(v: seq<Node>, n: Node, e: Element)
    ensures Named(v + [n], e) == Named(v, e) + if n.name == e then [n] else []
    decreases |v|
  {
    if v == [] {
      assert v + [n] == [n] && [n][1..] == [];
    } else {
      assert (v + [n])[0] == v[0] && (v + [n])[1..] == v[1..] + [n];
      NamedSnoc(v[1..], n, e);
    }
  }

  lemma {:induction false} ClearPhoto(v: seq<Node>)
    ensures Named(Clear(v), PHOTO) == Named(v, PHOTO) && forall k :: 0 <= k < |Clear(v)| ==> Clear(v)[k].name == PHOTO
    decreases |v|
  {
    if v != [] { ClearPhoto(v[1..]); }
  }

  lemma {:induction false} RemovePhoto(v: seq<Node>, e: Element)
    requires e != PHOTO
    ensures Named(Remove(v, e), PHOTO) == Named(v, PHOTO)
    ensures forall n :: n in Remove(v, e) ==> n in v
    decreases |v|
  {
    if v != [] { RemovePhoto(v[1..], e); }
  }

  lemma {:induction false} AppliedPhoto(v: seq<Node>, edit: Edit)
    requires edit.node.name != PHOTO
    ensures KeepsPhoto(v, ApplyEdit(v, edit)) && forall n :: n in ApplyEdit(v, edit) ==> n in v || n == edit.node
  {
    RemovePhoto(v, edit.node.name);
    NamedSnoc(v, edit.node, PHOTO);
    NamedSnoc(Remove(v, edit.node.name), edit.node, PHOTO);
  }

  lemma {:induction false} EditedPhoto(vcard: seq<Node>, edits: seq<Edit>)
    requires forall k :: 0 <= k < |edits| ==> edits[k].node.name != PHOTO
    ensures KeepsPhoto(vcard, Edited(vcard, edits))
    ensures forall n :: n in Edited(vcard, edits) && n.name != PHOTO ==> exists k :: 0 <= k < |edits| && edits[k].node == n
    decreases |edits|
  {
    if edits == [] {
      ClearPhoto(vcard);
    } else {
      var last := |edits| - 1;
      var v := Edited(vcard, edits[..last]);
      EditedPhoto(vcard, edits[..last]);
      AppliedPhoto(v, edits[last]);
      forall n | n in Edited(vcard, edits) && n.name != PHOTO ensures exists k :: 0 <= k < |edits| && edits[k].node == n {
        if n in v {
          var k :| 0 <= k < last && edits[..last][k].node == n;
          assert edits[k].node == n;
        }
      }
    }
  }

  /** The node for the alias, under NICKNAME, or FN for a server that does not take that. */
  function AliasNode(usable: set<Element>, alias: string): Node {
    Node(if NICKNAME in usable then NICKNAME else FN, Some(alias), [])
  }

  lemma {:induction false} EditsAreNoPhoto(fields: seq<ContactField>, usable: set<Element>, k: nat)
    requires Edits(fields, usable).Done? && k < |fields|
    ensures |Edits(fields, usable).value| == |fields| && Edits(fields, usable).value[k].node.name != PHOTO
  {
    VCardRoundTrip.Accepted(fields, usable, k);
    AcceptedIff(fields[k], usable);
  }

  /** Setting contact information keeps the photo, and removes everything else but what it puts in: the
      nodes printed for the fields, and the alias. */
  lemma {:induction false} NothingElseStays(
    vcard: seq<Node>, fields: seq<ContactField>, usable: set<Element>, alias: Option<string>)
    requires Commands(fields, usable).Done?
    ensures var v := PerformAll(vcard, Commands(fields, usable).value, usable, alias);
            && KeepsPhoto(vcard, v)
            && forall n :: n in v && n.name != PHOTO ==>
                 || (exists k :: 0 <= k < |fields| && EditOf(fields[k], usable).Done? && EditOf(fields[k], usable).value.node == n)
                 || (alias.Some? && n == AliasNode(usable, alias.value))
  {
    var edits := Edits(fields, usable).value;
    SequenceDone(EditEach(fields, usable));
    LastCommand(vcard, [ClearFields] + Puts(edits), usable, alias);
    PutsPerformed(vcard, edits, usable, alias);
    forall k | 0 <= k < |edits| ensures edits[k].node.name != PHOTO { EditsAreNoPhoto(fields, usable, k); }
    EditedPhoto(vcard, edits);
    var v1 := Edited(vcard, edits);
    if alias.Some? { AppliedPhoto(v1, Edit(true, AliasNode(usable, alias.value))); }
    var v := FixAlias(v1, usable, alias);
    forall n | n in v && n.name != PHOTO
      ensures || (exists k :: 0 <= k < |fields| && EditOf(fields[k], usable).Done? && EditOf(fields[k], usable).value.node == n)
              || (alias.Some? && n == AliasNode(usable, alias.value))
    {
      if n in v1 {
        var k :| 0 <= k < |edits| && edits[k].node == n;
        VCardRoundTrip.Accepted(fields, usable, k);
      }
    }
  }
}
