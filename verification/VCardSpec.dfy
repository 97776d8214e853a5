/** Contact information as vCard fields (src/conn-contact-info.c, XEP-0054): the table of fields, the
    edits made from a list of fields, and the fields read from a vCard. */
module VCardSpec {
  import opened Common

  /** Names of XML elements. */
  datatype Element =
    | FN | BDAY | MAILER | TZ | TITLE | ROLE | NOTE | PRODID | REV | SORT_STRING | UID | URL | NICKNAME
    | JABBERID | DESC
    | N | ADR | GEO | TEL | EMAIL | LABEL | ORG | PHOTO
    | FAMILY | GIVEN | MIDDLE | PREFIX | SUFFIX
    | POBOX | EXTADD | STREET | LOCALITY | REGION | PCODE | CTRY
    | LAT | LON | NUMBER | USERID | ORGNAME | ORGUNIT | LINE
    | HOME | WORK | POSTAL | PARCEL | DOM | INTL | PREF
    | VOICE | FAX | PAGER | MSG | CELL | VIDEO | BBS | MODEM | ISDN | PCS | INTERNET | X400
    | OtherElement(name: string)

  /** Names of fields on the Telepathy side: an element's name in lower case, or one of two others. */
  datatype FieldName = Lower(element: Element) | XJabber | XDesc | OtherName(name: string)

  /** Type-parameters: `type=` and an element's name in lower case, or something else. */
  datatype Param = Type(element: Element) | OtherParam(text: string)

  datatype Behaviour = Simple | SimpleOnce | Structured | StructuredOnce | Label | Org | Ignored

  datatype ContactField = ContactField(name: FieldName, params: seq<Param>, values: seq<string>)

  datatype Child = Child(name: Element, content: Option<string>)
  datatype Node = Node(name: Element, content: Option<string>, children: seq<Child>)

  // ---- The table ----

  function BehaviourOf(e: Element): Option<Behaviour> {
    match e
    case FN => Some(SimpleOnce)
    case N | GEO => Some(StructuredOnce)
    case ADR | TEL | EMAIL => Some(Structured)
    case LABEL => Some(Label)
    case ORG => Some(Org)
    case PHOTO => Some(Ignored)
    case BDAY | MAILER | TZ | TITLE | ROLE | NOTE | PRODID | REV | SORT_STRING | UID | URL | NICKNAME
      | JABBERID | DESC => Some(Simple)
    case _ => None
  }

  function TypesOf(e: Element): seq<Element> {
    match e
    case ADR | LABEL => [HOME, WORK, POSTAL, PARCEL, DOM, INTL, PREF]
    case TEL => [HOME, WORK, VOICE, FAX, PAGER, MSG, CELL, VIDEO, BBS, MODEM, ISDN, PCS, PREF]
    case EMAIL => [HOME, WORK, INTERNET, PREF, X400]
    case _ => []
  }

  function ElementsOf(e: Element): seq<Element> {
    match e
    case N => [FAMILY, GIVEN, MIDDLE, PREFIX, SUFFIX]
    case ADR => [POBOX, EXTADD, STREET, LOCALITY, REGION, PCODE, CTRY]
    case GEO => [LAT, LON]
    case TEL => [NUMBER]
    case EMAIL => [USERID]
    case _ => []
  }

  /** `known_fields_vcard` */
  function Lookup(name: FieldName): Option<Element> {
    match name
    case XJabber => Some(JABBERID)
    case XDesc => Some(DESC)
    case Lower(e) => if BehaviourOf(e).Some? && e != JABBERID && e != DESC then Some(e) else None
    case OtherName(_) => None
  }

  predicate Once(e: Element) { BehaviourOf(e) == Some(SimpleOnce) || BehaviourOf(e) == Some(StructuredOnce) }

  // ---- From fields to edits ----

  /** An edit adds a node, or puts it in the place of all nodes of its name. */
  datatype Edit = Edit(replace: bool, node: Node)

  /** A list of edits, an error for the caller, or an assertion failure. */
  datatype Outcome<T> = Done(value: T) | Invalid | Aborted

  /** The children for the type-parameters; every one of them must be in the table. */
  function ParamChildren(types: seq<Element>, params: seq<Param>): Outcome<seq<Child>>
    decreases |params|
  {
    if params == [] then Done([])
    else if params[0].Type? && params[0].element in types then
      var rest := ParamChildren(types, params[1..]);
      if rest.Done? then Done([Child(params[0].element, None)] + rest.value) else rest
    else Invalid
  }

  /** `conn_contact_info_new_edit` */
  function NewEdit(e: Element, content: Option<string>, params: seq<Param>): Outcome<Edit> {
    var children := ParamChildren(TypesOf(e), params);
    if children.Done? then Done(Edit(Once(e), Node(e, content, children.value))) else Invalid
  }

  function AddChildren(edit: Outcome<Edit>, children: seq<Child>): Outcome<Edit> {
    if edit.Done? then Done(edit.value.(node := edit.value.node.(children := edit.value.node.children + children)))
    else edit
  }

  /** Values for named elements, in order. */
  function ValueChildren(names: seq<Element>, values: seq<string>): seq<Child>
    requires |names| == |values|
  {
    seq(|names|, i requires 0 <= i < |names| => Child(names[i], Some(values[i])))
  }

  function Repeated(name: Element, values: seq<string>): seq<Child> {
    seq(|values|, i requires 0 <= i < |values| => Child(name, Some(values[i])))
  }

  /** The position of the first newline, or the length. */
  function Newline(s: string): (k: nat)
    ensures k <= |s| && (k < |s| ==> s[k] == '\n') && '\n' !in s[..k]
    decreases |s|
  {
    if s == [] || s[0] == '\n' then 0 else
      assert forall k :: 0 < k <= |s| ==> s[..k] == [s[0]] + s[1..][..k - 1];
      1 + Newline(s[1..])
  }

  /** Splitting at newlines, of a text that is not empty. */
  function SplitMore(s: string): (lines: seq<string>)
    ensures lines != []
    decreases |s|
  {
    var k := Newline(s);
    if k == |s| then [s] else [s[..k]] + SplitMore(s[k + 1..])
  }

  /** `g_strsplit`: an empty text has no lines. */
  function Split(s: string): seq<string> { if s == [] then [] else SplitMore(s) }

  /** The lines of a label; a last line that is empty is left out. */
  function LabelLines(s: string): seq<string> {
    var lines := Split(s);
    if lines != [] && lines[|lines| - 1] == [] then lines[..|lines| - 1] else lines
  }

  /** One field; `usable` are the elements the server accepts. */
  function EditOf(f: ContactField, usable: set<Element>): Outcome<Edit> {
    var e := Lookup(f.name);
    if e.None? || e.value !in usable then Invalid
    else match BehaviourOf(e.value).value
      case Simple => if |f.values| != 1 then Invalid else NewEdit(e.value, Some(f.values[0]), f.params)
      case SimpleOnce => if |f.values| != 1 then Invalid else NewEdit(e.value, Some(f.values[0]), f.params)
      case Structured => StructuredEdit(e.value, f)
      case StructuredOnce => StructuredEdit(e.value, f)
      case Org =>
        if f.values == [] then Invalid
        else AddChildren(NewEdit(e.value, None, f.params),
                         [Child(ORGNAME, Some(f.values[0]))] + Repeated(ORGUNIT, f.values[1..]))
      case Label =>
        if |f.values| != 1 then Invalid
        else AddChildren(NewEdit(e.value, None, f.params), Repeated(LINE, LabelLines(f.values[0])))
      case Ignored => Aborted
  }

  function StructuredEdit(e: Element, f: ContactField): Outcome<Edit> {
    if |f.values| != |ElementsOf(e)| then Invalid
    else AddChildren(NewEdit(e, None, f.params), ValueChildren(ElementsOf(e), f.values))
  }

  /** The edits if all went well, or else the first thing that did not. */
  function Sequence(outcomes: seq<Outcome<Edit>>): Outcome<seq<Edit>>
    decreases |outcomes|
  {
    if outcomes == [] then Done([])
    else
      var last := |outcomes| - 1;
      var before := Sequence(outcomes[..last]);
      if !before.Done? then before
      else match outcomes[last]
        case Done(edit) => Done(before.value + [edit])
        case Invalid => Invalid
        case Aborted => Aborted
  }

  function EditEach(fields: seq<ContactField>, usable: set<Element>): seq<Outcome<Edit>> {
    seq(|fields|, k requires 0 <= k < |fields| => EditOf(fields[k], usable))
  }

  /** The edits of a list of fields; the first field that will not do ends it. */
  function Edits(fields: seq<ContactField>, usable: set<Element>): Outcome<seq<Edit>> {
    Sequence(EditEach(fields, usable))
  }

  // ---- Applying edits ----

  function Remove(vcard: seq<Node>, name: Element): seq<Node>
    decreases |vcard|
  {
    if vcard == [] then []
    else if vcard[0].name == name then Remove(vcard[1..], name)
    else [vcard[0]] + Remove(vcard[1..], name)
  }

  /** Clearing a vCard spares the photo. */
  function Clear(vcard: seq<Node>): seq<Node>
    decreases |vcard|
  {
    if vcard == [] then []
    else if vcard[0].name == PHOTO then [vcard[0]] + Clear(vcard[1..])
    else Clear(vcard[1..])
  }

  /** The nodes of a name. */
  function Named(vcard: seq<Node>, name: Element): seq<Node>
    decreases |vcard|
  {
    if vcard == [] then []
    else if vcard[0].name == name then [vcard[0]] + Named(vcard[1..], name)
    else Named(vcard[1..], name)
  }

  /** A replacement that is equal to the only node of its name changes nothing. */
  function ApplyEdit(vcard: seq<Node>, edit: Edit): seq<Node> {
    var name := edit.node.name;
    if !edit.replace then vcard + [edit.node]
    else if Named(vcard, name) == [edit.node] then vcard
    else Remove(vcard, name) + [edit.node]
  }

  predicate HasNode(vcard: seq<Node>, name: Element) { exists k :: 0 <= k < |vcard| && vcard[k].name == name }

  /** The element that holds the user's alias. */
  function AliasElement(usable: set<Element>): Element { if NICKNAME in usable then NICKNAME else FN }

  /** The alias goes in if the vCard has none; `alias` is the one known, if it is good enough. */
  function FixAlias(vcard: seq<Node>, usable: set<Element>, alias: Option<string>): seq<Node> {
    var e := AliasElement(usable);
    if HasNode(vcard, e) || alias.None? || e !in usable then vcard
    else ApplyEdit(vcard, Edit(true, Node(e, alias, [])))
  }

  /** The steps in which a vCard is edited: cleared, given its fields, and its alias if that is missing. */
  datatype Command = ClearFields | Put(edit: Edit) | SetAlias

  function Perform(vcard: seq<Node>, cmd: Command, usable: set<Element>, alias: Option<string>): seq<Node> {
    match cmd
    case ClearFields => Clear(vcard)
    case Put(edit) => ApplyEdit(vcard, edit)
    case SetAlias => FixAlias(vcard, usable, alias)
  }

  function PerformAll(vcard: seq<Node>, cmds: seq<Command>, usable: set<Element>, alias: Option<string>): seq<Node>
    decreases |cmds|
  {
    if cmds == [] then vcard
    else
      var last := |cmds| - 1;
      Perform(PerformAll(vcard, cmds[..last], usable, alias), cmds[last], usable, alias)
  }

  function Puts(edits: seq<Edit>): seq<Command> {
    seq(|edits|, k requires 0 <= k < |edits| => Put(edits[k]))
  }

  /** `gabble_connection_set_contact_info`: the edits of the fields between a CLEAR and a SET_ALIAS. */
  function Commands(fields: seq<ContactField>, usable: set<Element>): Outcome<seq<Command>> {
    match Edits(fields, usable)
    case Done(edits) => Done([ClearFields] + Puts(edits) + [SetAlias])
    case Invalid => Invalid
    case Aborted => Aborted
  }

  // ---- From nodes to fields ----

  /** The first child of a name. */
  function Find(children: seq<Child>, name: Element): Option<Child>
    decreases |children|
  {
    if children == [] then None else if children[0].name == name then Some(children[0]) else Find(children[1..], name)
  }

  /** The type-parameters present, in the order of the table. */
  function ParamsFound(types: seq<Element>, children: seq<Child>): seq<Param>
    decreases |types|
  {
    if types == [] then []
    else if Find(children, types[0]).Some? then [Type(types[0])] + ParamsFound(types[1..], children)
    else ParamsFound(types[1..], children)
  }

  /** A list of strings ends at the first NULL. */
  function ValuesFound(names: seq<Element>, children: seq<Child>): seq<string>
    decreases |names|
  {
    if names == [] then []
    else
      var c := Find(children, names[0]);
      if c.None? then [""] + ValuesFound(names[1..], children)
      else if c.value.content.None? then []
      else [c.value.content.value] + ValuesFound(names[1..], children)
  }

  function Text(content: Option<string>): string { if content.Some? then content.value else "" }

  /** The contents of all children of a name. */
  function Contents(children: seq<Child>, name: Element): seq<string>
    decreases |children|
  {
    if children == [] then []
    else if children[0].name == name then [Text(children[0].content)] + Contents(children[1..], name)
    else Contents(children[1..], name)
  }

  function EndLine(line: string): string {
    if line != [] && line[|line| - 1] == '\n' then line else line + "\n"
  }

  function JoinLines(lines: seq<string>): string
    decreases |lines|
  {
    if lines == [] then [] else EndLine(lines[0]) + JoinLines(lines[1..])
  }

  /** The field read from a node, if there is one. */
  function FieldOf(n: Node): Option<ContactField> {
    var b := BehaviourOf(n.name);
    if b.None? then None
    else match b.value
      case Simple => Some(ContactField(Lower(n.name), [], if n.content.Some? then [n.content.value] else []))
      case SimpleOnce => Some(ContactField(Lower(n.name), [], if n.content.Some? then [n.content.value] else []))
      case Structured => Some(StructuredField(n))
      case StructuredOnce => Some(StructuredField(n))
      case Org =>
        var name := Find(n.children, ORGNAME);
        if name.None? then None
        else Some(ContactField(Lower(ORG), [], [Text(name.value.content)] + Contents(n.children, ORGUNIT)))
      case Label => Some(ContactField(Lower(LABEL), [], [JoinLines(Contents(n.children, LINE))]))
      case Ignored => None
  }

  function StructuredField(n: Node): ContactField {
    ContactField(Lower(n.name), ParamsFound(TypesOf(n.name), n.children), ValuesFound(ElementsOf(n.name), n.children))
  }

  /** `_parse_vcard` */
  function Parse(vcard: seq<Node>): seq<ContactField>
    decreases |vcard|
  {
    if vcard == [] then []
    else
      var last := |vcard| - 1;
      var front := Parse(vcard[..last]);
      var f := FieldOf(vcard[last]);
      if f.Some? then front + [f.value] else front
  }
}
