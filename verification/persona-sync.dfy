/** Persona frontmatter, the agents table, and the check that decides whether they differ. */
module PersonaSync {
  import opened Options
  import opened JsText
  import T = TelegramFrontmatter
  import opened TelegramReading

  /** A structured value, as the frontmatter parser or JSON yields it. */
  datatype Node = Text(s: string) | Number(text: string) | Flag(b: bool) | Null | List(items: seq<Node>) | Dict(entries: map<string, Node>)

  /** A frontmatter value: absent, a text, or something structured. */
  datatype Raw = Missing | Str(s: string) | Tree(node: Node)

  /** Encoded fields are stored as JSON and never decoded; `byKeys` says what counts as empty. */
  datatype Kind = Scalar | Hook | Encoded(byKeys: bool) | Env | Telegram

  datatype Field = Field(name: string, column: string, personaKey: Option<string>, kind: Kind, upsertable: bool, createOnly: bool)

  /** A value on the way to the table or back. `JsonText` is the JSON text of a node. */
  datatype Value = Undefined | Plain(s: string) | JsonText(node: Node) | EnvVars(vars: map<string, string>)
                 | Binding(cfg: T.Config) | Unbindable(node: Node)

  /** A database cell: null, a text, or the JSON text of a node. */
  datatype Cell = NullCell | TextCell(s: string) | JsonCell(node: Node)

  type Row = map<string, Cell>
  type Frontmatter = map<string, Raw>
  type Values = map<string, Value>

  const PERSONA := "persona"
  const HOOK_START := "hookStart"

  // ── normalisers ──

  /** The environment when every value is a text. */
  function EnvOf(n: Node): Value {
    match n
    case Dict(m) => if forall k :: k in m ==> m[k].Text? then EnvVars(map k | k in m :: m[k].s) else Undefined
    case _ => Undefined
  }

  function NodeValue(n: Node): T.Value {
    match n
    case Text(s) => T.Text(s)
    case Number(t) => T.Number(t)
    case Flag(b) => T.Flag(b)
    case _ => T.Other
  }

  function SubValue(m: map<string, Node>, key: string): T.Value {
    if key in m then NodeValue(m[key]) else T.Missing
  }

  function BlockOf(n: Node): T.RawBlock {
    match n
    case Dict(m) => T.RawBlock(SubValue(m, "chatId"), SubValue(m, "inbound"), SubValue(m, "routing"))
    case _ => T.NoBlock
  }

  function TelegramOf(n: Node): Value {
    match T.Normalize(BlockOf(n))
    case Some(c) => Binding(c)
    case None => Undefined
  }

  function EnvNode(vars: map<string, string>): Node {
    Dict(map k | k in vars :: Text(vars[k]))
  }

  function BindingNode(c: T.Config): Node {
    Dict(map["chatId" := Text(c.chatId), "inbound" := Flag(c.inbound), "routing" := Text(T.RoutingText(c.routing))])
  }

  /** What the serializer of an encoded field drops. */
  predicate IsEmpty(byKeys: bool, n: Node) {
    match n
    case Text(s) => s == ""
    case List(items) => items == []
    case Dict(m) => byKeys && m == map[]
    case Number(_) => byKeys
    case Flag(_) => byKeys
    case Null => true
  }

  // ── building options from frontmatter ──

  /** A null counts as absent. */
  function Get(fm: Frontmatter, key: string): Raw {
    if key in fm && fm[key] != Tree(Null) then fm[key] else Missing
  }

  /** The start hook falls back to its old name. */
  function ValueOf(f: Field, fm: Frontmatter): Raw {
    if f.name == HOOK_START then (if Get(fm, "start") != Missing then Get(fm, "start") else Get(fm, "spawn"))
    else match f.personaKey case Some(k) => Get(fm, k) case None => Missing
  }

  function Built(kind: Kind, raw: Raw): Value {
    match kind
    case Env => (match raw case Tree(n) => EnvOf(n) case _ => Undefined)
    case Telegram => (match raw case Tree(n) => TelegramOf(n) case _ => Undefined)
    case Encoded(byKeys) =>
      (match raw
       case Missing => Undefined
       case Str(s) => if s == "" then Undefined else JsonText(Text(s))
       case Tree(n) => if IsEmpty(byKeys, n) then Undefined else JsonText(n))
    case Hook => (match raw case Missing => Undefined case Str(s) => Plain(s) case Tree(n) => JsonText(n))
    case Scalar => (match raw case Missing => Undefined case Str(s) => Plain(s) case Tree(n) => Unbindable(n))
  }

  /** The option a field gets; fields set at creation or without a key get none. */
  function OptionOf(f: Field, name: string, fm: Frontmatter): Value {
    if f.createOnly then Undefined
    else if f.name == PERSONA then Plain(name)
    else if f.personaKey.None? then Undefined
    else Built(f.kind, ValueOf(f, fm))
  }

  function Lookup(opts: Values, name: string): Value {
    if name in opts then opts[name] else Undefined
  }

  // ── to the table and back ──

  function CellOf(kind: Kind, v: Value): Cell {
    match v
    case Undefined => NullCell
    case Plain(s) => TextCell(s)
    case JsonText(n) => JsonCell(n)
    case EnvVars(m) => JsonCell(EnvNode(m))
    case Binding(c) =>
      if kind == Telegram then
        (match T.Normalize(BlockOf(BindingNode(c))) case Some(d) => JsonCell(BindingNode(d)) case None => NullCell)
      else JsonCell(BindingNode(c))
    case Unbindable(_) => NullCell
  }

  /** The node a JSON cell holds; `parse` decodes any other text. */
  function Decoded(cell: Cell, parse: string -> Option<Node>): Option<Node> {
    match cell
    case NullCell => None
    case JsonCell(n) => Some(n)
    case TextCell(s) => if s == "" then None else parse(s)
  }

  function ReadBack(kind: Kind, cell: Cell, parse: string -> Option<Node>): Value {
    if kind == Env then (match Decoded(cell, parse) case Some(n) => EnvOf(n) case None => Undefined)
    else if kind == Telegram then (match Decoded(cell, parse) case Some(n) => TelegramOf(n) case None => Undefined)
    else match cell case NullCell => Undefined case TextCell(s) => Plain(s) case JsonCell(n) => JsonText(n)
  }

  function ColumnOf(row: Row, column: string): Cell {
    if column in row then row[column] else NullCell
  }

  /** The config part of the record that a row is read as. */
  function RecordOf(f: Field, row: Row, parse: string -> Option<Node>): Value {
    if f.createOnly then Undefined else ReadBack(f.kind, ColumnOf(row, f.column), parse)
  }

  /** Same number of keys, and every key of the first has the same value in the second. */
  predicate EnvEquals(a: map<string, string>, b: map<string, string>) {
    |a| == |b| && forall k :: k in a ==> k in b && a[k] == b[k]
  }

  predicate Same(a: Value, b: Value) {
    match (a, b)
    case (EnvVars(x), EnvVars(y)) => EnvEquals(x, y)
    case _ => a == b
  }

  predicate Compared(f: Field) {
    f.upsertable && f.name != PERSONA
  }

  // ── the statements ──

  function Upsertable(registry: seq<Field>): seq<Field> {
    if |registry| == 0 then []
    else if registry[|registry| - 1].upsertable then Upsertable(registry[..|registry| - 1]) + [registry[|registry| - 1]]
    else Upsertable(registry[..|registry| - 1])
  }

  function Columns(fields: seq<Field>): seq<string> {
    seq(|fields|, i requires 0 <= i < |fields| => fields[i].column)
  }

  function Params(fields: seq<Field>, opts: Values): seq<Cell> {
    seq(|fields|, i requires 0 <= i < |fields| => CellOf(fields[i].kind, Lookup(opts, fields[i].name)))
  }

  /** `SET c1 = ?, c2 = ?, …` with the parameters in the same order. */
  function Assign(row: Row, columns: seq<string>, params: seq<Cell>): Row
    requires |columns| == |params|
  {
    if |columns| == 0 then row
    else
      var n := |columns| - 1;
      Assign(row, columns[..n], params[..n])[columns[n] := params[n]]
  }

  /** An existing row keeps every column that is not assigned; a new one starts from the defaults. */
  function Upsert(registry: seq<Field>, opts: Values, existing: Option<Row>, defaults: Row): Row {
    match existing
    case Some(row) =>
      var fields := Upsertable(registry);
      Assign(row, Columns(fields), Params(fields, opts))
    case None => Assign(defaults, Columns(registry), Params(registry, opts))
  }

  ghost predicate RegistryGood(registry: seq<Field>) {
    && (forall i, j :: 0 <= i < j < |registry| ==>
          registry[i].name != registry[j].name && registry[i].column != registry[j].column)
    && (forall f :: f in registry ==> (f.upsertable ==> !f.createOnly) && (f.name == PERSONA ==> f.kind == Scalar))
  }

  /** Scalar fields hold texts; the table takes nothing else. */
  ghost predicate Bindable(registry: seq<Field>, fm: Frontmatter) {
    forall f :: f in registry && f.kind == Scalar ==> !ValueOf(f, fm).Tree?
  }

  // ── the loops ──

  method BuildUpsertOpts(registry: seq<Field>, name: string, fm: Frontmatter) returns (opts: Values)
    requires RegistryGood(registry)
    ensures forall f :: f in registry ==> Lookup(opts, f.name) == OptionOf(f, name, fm)
  {
    hide Built, ValueOf;
    opts := map[];
    for i := 0 to |registry|
      invariant forall n :: n in opts ==> exists k :: 0 <= k < i && registry[k].name == n
      invariant forall k :: 0 <= k < i ==> Lookup(opts, registry[k].name) == OptionOf(registry[k], name, fm)
    {
      var f := registry[i];
      if f.createOnly {
        continue;
      }
      if f.name == PERSONA {
        opts := opts[f.name := Plain(name)];
        continue;
      }
      if f.personaKey.None? {
        continue;
      }
      opts := opts[f.name := Built(f.kind, ValueOf(f, fm))];
    }
    forall f | f in registry ensures Lookup(opts, f.name) == OptionOf(f, name, fm) {
      var k :| 0 <= k < |registry| && registry[k] == f;
    }
  }

  method MapConfigFromRow(registry: seq<Field>, row: Row, parse: string -> Option<Node>) returns (record: Values)
    requires RegistryGood(registry)
    ensures forall f :: f in registry ==> Lookup(record, f.name) == RecordOf(f, row, parse)
  {
    hide ReadBack;
    record := map[];
    for i := 0 to |registry|
      invariant forall n :: n in record ==> exists k :: 0 <= k < i && registry[k].name == n
      invariant forall k :: 0 <= k < i ==> Lookup(record, registry[k].name) == RecordOf(registry[k], row, parse)
    {
      var f := registry[i];
      if f.createOnly {
        continue;
      }
      record := record[f.name := ReadBack(f.kind, ColumnOf(row, f.column), parse)];
    }
    forall f | f in registry ensures Lookup(record, f.name) == RecordOf(f, row, parse) {
      var k :| 0 <= k < |registry| && registry[k] == f;
    }
  }

  method ConfigFieldsChanged(registry: seq<Field>, existing: Values, opts: Values) returns (changed: bool)
    ensures changed <==> exists f :: f in registry && Compared(f) && !Same(Lookup(existing, f.name), Lookup(opts, f.name))
    ensures changed <==> exists f :: f in registry && f.upsertable && f.name != "persona"
                                  && Lookup(existing, f.name) != Lookup(opts, f.name)
  {
    hide Same;
    forall a, b ensures Same(a, b) <==> a == b { SameIff(a, b); }
    for i := 0 to |registry|
      invariant forall k :: 0 <= k < i && Compared(registry[k]) ==>
        Same(Lookup(existing, registry[k].name), Lookup(opts, registry[k].name))
    {
      var f := registry[i];
      if !f.upsertable {
        continue;
      }
      if f.name == PERSONA {
        continue;
      }
      if !Same(Lookup(existing, f.name), Lookup(opts, f.name)) {
        assert f in registry && Compared(f);
        return true;
      }
    }
    changed := false;
  }

  // ── each column gets its own field's value ──

  lemma {:induction false} UpsertableFields(registry: seq<Field>)
    ensures forall f :: f in Upsertable(registry) <==> f in registry && f.upsertable
  {
    if |registry| > 0 {
      UpsertableFields(registry[..|registry| - 1]);
      assert registry == registry[..|registry| - 1] + [registry[|registry| - 1]];
    }
  }

  ghost predicate ColumnsDistinct(fields: seq<Field>) {
    forall i, j :: 0 <= i < j < |fields| ==> fields[i].column != fields[j].column
  }

  lemma {:induction false} UpsertableDistinct(registry: seq<Field>)
    requires ColumnsDistinct(registry)
    ensures ColumnsDistinct(Upsertable(registry))
  {
    if |registry| > 0 {
      var rest, last := registry[..|registry| - 1], registry[|registry| - 1];
      UpsertableDistinct(rest);
      UpsertableFields(rest);
      var u := Upsertable(rest);
      forall i | 0 <= i < |u| ensures u[i].column != last.column {
        assert u[i] in u;
        var k :| 0 <= k < |rest| && rest[k] == u[i];
        assert registry[k] == u[i];
      }
    }
  }

  lemma {:induction false} AssignSets(row: Row, columns: seq<string>, params: seq<Cell>, c: string)
    requires |columns| == |params|
    ensures c !in columns ==> ColumnOf(Assign(row, columns, params), c) == ColumnOf(row, c)
    ensures forall i :: 0 <= i < |columns| && columns[i] == c && (forall k :: i < k < |columns| ==> columns[k] != c) ==>
      ColumnOf(Assign(row, columns, params), c) == params[i]
  {
    if |columns| > 0 {
      var n := |columns| - 1;
      AssignSets(row, columns[..n], params[..n], c);
      assert columns == columns[..n] + [columns[n]];
      if columns[n] != c {
        forall i | 0 <= i < |columns| && columns[i] == c && (forall k :: i < k < |columns| ==> columns[k] != c)
          ensures ColumnOf(Assign(row, columns, params), c) == params[i]
        {
          assert columns[..n][i] == c && params[..n][i] == params[i];
          assert forall k :: i < k < n ==> columns[..n][k] == columns[k];
        }
      }
    }
  }

  lemma FieldColumn(fields: seq<Field>, opts: Values, row: Row, f: Field)
    requires ColumnsDistinct(fields) && f in fields
    ensures ColumnOf(Assign(row, Columns(fields), Params(fields, opts)), f.column) == CellOf(f.kind, Lookup(opts, f.name))
  {
    hide CellOf;
    var i :| 0 <= i < |fields| && fields[i] == f;
    AssignSets(row, Columns(fields), Params(fields, opts), f.column);
    assert Columns(fields)[i] == f.column;
    assert Params(fields, opts)[i] == CellOf(f.kind, Lookup(opts, f.name));
    assert forall k :: i < k < |fields| ==> Columns(fields)[k] == fields[k].column != f.column;
  }

  /** Each written column holds its own field's value. */
  lemma OwnColumn(registry: seq<Field>, opts: Values, existing: Option<Row>, defaults: Row, f: Field)
    requires RegistryGood(registry) && f in registry && (f.upsertable || existing.None?)
    ensures ColumnOf(Upsert(registry, opts, existing, defaults), f.column) == CellOf(f.kind, Lookup(opts, f.name))
  {
    hide CellOf, Assign, Columns, Params;
    assert ColumnsDistinct(registry);
    match existing {
      case Some(row) => {
        UpsertableDistinct(registry);
        UpsertableFields(registry);
        FieldColumn(Upsertable(registry), opts, row, f);
      }
      case None => FieldColumn(registry, opts, defaults, f);
    }
  }

  /** No other column changes: not the runtime state, not what is set only at creation. */
  lemma OtherColumns(registry: seq<Field>, opts: Values, existing: Option<Row>, defaults: Row, c: string)
    requires match existing
      case Some(_) => forall f :: f in registry && f.upsertable ==> f.column != c
      case None => forall f :: f in registry ==> f.column != c
    ensures ColumnOf(Upsert(registry, opts, existing, defaults), c)
         == ColumnOf(match existing case Some(row) => row case None => defaults, c)
  {
    hide CellOf, Assign, ColumnOf;
    UpsertableFields(registry);
    match existing {
      case Some(row) => {
        var fields := Upsertable(registry);
        assert c !in Columns(fields) by { NotAColumn(fields, c); }
        AssignSets(row, Columns(fields), Params(fields, opts), c);
      }
      case None => {
        assert c !in Columns(registry) by { NotAColumn(registry, c); }
        AssignSets(defaults, Columns(registry), Params(registry, opts), c);
      }
    }
  }

  lemma NotAColumn(fields: seq<Field>, c: string)
    requires forall f :: f in fields ==> f.column != c
    ensures c !in Columns(fields)
  {
    forall i | 0 <= i < |Columns(fields)| ensures Columns(fields)[i] != c {
      assert fields[i] in fields;
    }
  }

  // ── which frontmatter ends as which cell ──

  ghost predicate Absent(fm: Frontmatter, key: string) {
    key !in fm || fm[key] == Missing || fm[key] == Tree(Null)
  }

  /** `key` is where the field finds its value: the start hook looks under `spawn` when there is no `start`. */
  ghost predicate FoundUnder(f: Field, fm: Frontmatter, key: string) {
    if f.name != "hookStart" then f.personaKey == Some(key)
    else key == if Absent(fm, "start") then "spawn" else "start"
  }

  /** The chat id of a block, cleaned when it is read and once more when it is stored. */
  ghost predicate ChatIdOf(chatId: Node, id: string) {
    match chatId
    case Text(s) => exists once :: Cleaned(s, once) && Cleaned(once, id)
    case Number(t) => Cleaned(t, id)
    case _ => id == ""
  }

  /** The cell of a Telegram block: its three entries, unless no chat id is left. */
  ghost predicate BindingCell(block: map<string, Node>, cell: Cell) {
    exists id :: ChatIdOf(if "chatId" in block then block["chatId"] else Null, id) && BindingCellFor(block, id, cell)
  }

  ghost predicate BindingCellFor(block: map<string, Node>, id: string, cell: Cell) {
    if id == "" then cell == NullCell
    else
      && cell.JsonCell? && cell.node.Dict? && cell.node.entries.Keys == {"chatId", "inbound", "routing"}
      && cell.node.entries["chatId"] == Text(id)
      && cell.node.entries["inbound"]
           == Flag(!("inbound" in block && (block["inbound"] == Flag(false) || block["inbound"] == Text("false"))))
      && cell.node.entries["routing"]
           == Text(if "routing" in block && block["routing"] in {Text("prefix"), Text("passthrough")}
                   then block["routing"].s else "self")
  }

  /** What a value that is there ends as, by the kind of its field. */
  ghost predicate Ends(kind: Kind, raw: Raw, cell: Cell) {
    match (kind, raw)
    case (Scalar, Str(s)) => cell == TextCell(s)
    case (Hook, Str(s)) => cell == TextCell(s)
    case (Hook, Tree(n)) => cell == JsonCell(n)
    case (Encoded(_), Str(s)) => cell == if s == "" then NullCell else JsonCell(Text(s))
    case (Encoded(true), Tree(n)) =>
      cell == if n in {Text(""), List([]), Dict(map[])} || n.Number? || n.Flag? || n.Null? then NullCell else JsonCell(n)
    case (Encoded(false), Tree(n)) => cell == if n in {Text(""), List([]), Null} then NullCell else JsonCell(n)
    case (Env, Tree(Dict(m))) => cell == if forall k :: k in m ==> m[k].Text? then JsonCell(Dict(m)) else NullCell
    case (Env, _) => cell == NullCell
    case (Telegram, Tree(Dict(m))) => BindingCell(m, cell)
    case (Telegram, _) => cell == NullCell
    case _ => true
  }

  /** The cell a field's own column holds once the frontmatter is synced. */
  ghost predicate Stored(f: Field, name: string, fm: Frontmatter, cell: Cell) {
    if f.createOnly then cell == NullCell
    else if f.name == "persona" then cell == TextCell(name)
    else if f.personaKey.None? then cell == NullCell
    else forall key :: FoundUnder(f, fm, key) ==> if Absent(fm, key) then cell == NullCell else Ends(f.kind, fm[key], cell)
  }

  /** The chat id as it is read from a block. */
  function ReadId(chatId: Node): string {
    match chatId case Text(s) => T.CleanId(s) case Number(t) => t case _ => ""
  }

  lemma ChatIdIsClean(chatId: Node)
    ensures ChatIdOf(chatId, T.CleanId(ReadId(chatId)))
  {
    hide Cleaned, T.CleanId;
    CleanIdIsClean(ReadId(chatId));
    match chatId {
      case Text(s) => CleanIdIsClean(s);
      case Number(_) =>
      case _ => EmptyIsClean();
    }
  }

  lemma EmptyIsClean()
    ensures T.CleanId("") == ""
  {
    T.CleanIdLength("");
  }

  lemma BindingEntries(block: map<string, Node>, c: T.Config)
    requires T.Normalize(BlockOf(Dict(block))) == Some(c) && T.CleanId(c.chatId) != ""
    ensures BindingCellFor(block, T.CleanId(c.chatId), JsonCell(BindingNode(c.(chatId := T.CleanId(c.chatId)))))
  {
    hide T.CleanId;
    assert "chatId" != "inbound" && "chatId" != "routing" && "inbound" != "routing" by {
      assert "chatId"[0] != "inbound"[0] && "chatId"[0] != "routing"[0] && "inbound"[0] != "routing"[0];
    }
  }

  lemma TelegramEnds(block: map<string, Node>)
    ensures BindingCell(block, CellOf(Telegram, TelegramOf(Dict(block))))
  {
    hide ChatIdOf, BindingCellFor, BindingNode;
    var chatId := if "chatId" in block then block["chatId"] else Null;
    var id := T.CleanId(ReadId(chatId));
    ChatIdIsClean(chatId);
    EmptyIsClean();
    assert BindingCellFor(block, id, CellOf(Telegram, TelegramOf(Dict(block)))) by { TelegramCell(block, chatId); }
  }

  lemma TelegramCell(block: map<string, Node>, chatId: Node)
    requires chatId == if "chatId" in block then block["chatId"] else Null
    ensures BindingCellFor(block, T.CleanId(ReadId(chatId)), CellOf(Telegram, TelegramOf(Dict(block))))
  {
    hide BindingNode, T.CleanId;
    EmptyIsClean();
    match T.Normalize(BlockOf(Dict(block))) {
      case None =>
      case Some(c) => {
        BindingBlock(c);
        if T.CleanId(c.chatId) != "" {
          BindingEntries(block, c);
        }
      }
    }
  }

  lemma EnvEnds(m: map<string, Node>)
    ensures CellOf(Env, EnvOf(Dict(m))) == if forall k :: k in m ==> m[k].Text? then JsonCell(Dict(m)) else NullCell
  {
    if forall k :: k in m ==> m[k].Text? {
      var vars := map k | k in m :: m[k].s;
      assert (map k | k in vars :: Text(vars[k])) == m;
    }
  }

  lemma BuiltEnds(kind: Kind, raw: Raw)
    requires !raw.Missing? && raw != Tree(Null) && (kind == Scalar ==> !raw.Tree?)
    ensures Ends(kind, raw, CellOf(kind, Built(kind, raw)))
  {
    hide BindingCell, EnvOf, TelegramOf;
    match (kind, raw) {
      case (Env, Tree(Dict(m))) => EnvEnds(m);
      case (Env, Tree(n)) => NoEnv(n);
      case (Telegram, Tree(Dict(m))) => TelegramEnds(m);
      case (Telegram, Tree(n)) => NoBinding(n);
      case _ =>
    }
  }

  lemma NoEnv(n: Node)
    requires !n.Dict?
    ensures EnvOf(n) == Undefined
  {
  }

  lemma NoBinding(n: Node)
    requires !n.Dict?
    ensures TelegramOf(n) == Undefined
  {
  }

  lemma AbsentEnds(kind: Kind)
    ensures CellOf(kind, Built(kind, Missing)) == NullCell
  {
  }

  /** Every field's option ends as the cell that its frontmatter calls for. */
  lemma OptionIsStored(f: Field, name: string, fm: Frontmatter)
    requires (f.kind == Scalar ==> !ValueOf(f, fm).Tree?) && (f.name == PERSONA ==> f.kind == Scalar)
    ensures Stored(f, name, fm, CellOf(f.kind, OptionOf(f, name, fm)))
  {
    hide Built, CellOf, Ends;
    if f.createOnly || f.name == PERSONA || f.personaKey.None? {
      PlainCells(f.kind, name);
    } else {
      forall key | FoundUnder(f, fm, key)
        ensures if Absent(fm, key) then CellOf(f.kind, OptionOf(f, name, fm)) == NullCell
                else Ends(f.kind, fm[key], CellOf(f.kind, OptionOf(f, name, fm)))
      {
        if Absent(fm, key) {
          AbsentEnds(f.kind);
        } else {
          BuiltEnds(f.kind, fm[key]);
        }
      }
    }
  }

  lemma PlainCells(kind: Kind, name: string)
    ensures CellOf(kind, Undefined) == NullCell && CellOf(kind, Plain(name)) == TextCell(name)
  {
  }

  // ── the fixpoint ──

  lemma EnvRoundTrip(vars: map<string, string>)
    ensures EnvOf(EnvNode(vars)) == EnvVars(vars)
  {
    var n := EnvNode(vars);
    assert (map k | k in n.entries :: n.entries[k].s) == vars;
  }

  lemma EnvEqualsIff(a: map<string, string>, b: map<string, string>)
    ensures EnvEquals(a, b) <==> a == b
  {
    if EnvEquals(a, b) {
      assert a.Keys <= b.Keys;
      SameSize(a.Keys, b.Keys);
      assert |a.Keys| == |a| && |b.Keys| == |b|;
      assert a == b;
    }
  }

  /** Two values compare as the same exactly when they are. */
  lemma SameIff(a: Value, b: Value)
    ensures Same(a, b) <==> a == b
  {
    if a.EnvVars? && b.EnvVars? {
      EnvEqualsIff(a.vars, b.vars);
    }
  }

  lemma SameSize(a: set<string>, b: set<string>)
    requires a <= b
    ensures |a| == |b| ==> a == b
  {
    assert |b - a| == |b| - |a|;
    if |a| == |b| {
      assert b - a == {};
    }
  }

  lemma BindingBlock(c: T.Config)
    ensures T.Normalize(BlockOf(BindingNode(c)))
         == if T.CleanId(c.chatId) == "" then None else Some(c.(chatId := T.CleanId(c.chatId)))
  {
    hide T.CleanId;
    T.RoutingRoundTrip(c.routing);
    assert "chatId" != "inbound" && "chatId" != "routing" && "inbound" != "routing" by {
      assert "chatId"[0] != "inbound"[0] && "chatId"[0] != "routing"[0] && "inbound"[0] != "routing"[0];
    }
  }

  /** A binding survives the way to the table and back exactly when its chat id is already clean. */
  lemma BindingRoundTripIff(c: T.Config, parse: string -> Option<Node>)
    requires c.chatId != ""
    ensures ReadBack(Telegram, CellOf(Telegram, Binding(c)), parse) == Binding(c) <==> T.CleanId(c.chatId) == c.chatId
  {
    hide T.CleanId, BindingNode, BlockOf;
    BindingBlock(c);
    T.CleanIdLength(c.chatId);
    var d := T.CleanId(c.chatId);
    if d != "" {
      BindingBlock(c.(chatId := d));
    }
  }

  /** What building options can yield for a field. */
  ghost predicate Fits(kind: Kind, v: Value) {
    match kind
    case Env => v.Undefined? || v.EnvVars?
    case Telegram => v.Undefined? || (v.Binding? && v.cfg.chatId != "")
    case Encoded(_) => v.Undefined? || v.JsonText?
    case Hook => v.Undefined? || v.Plain? || v.JsonText?
    case Scalar => v.Undefined? || v.Plain?
  }

  lemma BuiltFits(kind: Kind, raw: Raw)
    requires kind == Scalar ==> !raw.Tree?
    ensures Fits(kind, Built(kind, raw))
  {
    hide T.CleanId, BlockOf;
  }

  lemma OptionFits(registry: seq<Field>, f: Field, name: string, fm: Frontmatter)
    requires RegistryGood(registry) && Bindable(registry, fm) && f in registry
    ensures Fits(f.kind, OptionOf(f, name, fm))
  {
    hide Built;
    if !f.createOnly && f.name != PERSONA && f.personaKey.Some? {
      BuiltFits(f.kind, ValueOf(f, fm));
    }
  }

  /** A text that someone else left in a JSON column is read as what it decodes to, if it decodes. */
  lemma TextCellsAreParsed(kind: Kind, s: string, parse: string -> Option<Node>)
    requires kind == Env || kind == Telegram
    ensures ReadBack(kind, TextCell(s), parse)
         == if s == "" || parse(s).None? then Undefined else ReadBack(kind, JsonCell(parse(s).value), parse)
  {
  }

  /** The one way a value can come back different: a chat id that one more cleaning changes. */
  predicate Stable(v: Value) {
    v.Binding? ==> T.CleanId(v.cfg.chatId) == v.cfg.chatId
  }

  lemma ValueRoundTripIff(kind: Kind, v: Value, parse: string -> Option<Node>)
    requires Fits(kind, v)
    ensures Same(ReadBack(kind, CellOf(kind, v), parse), v) <==> Stable(v)
  {
    hide T.CleanId, BindingNode, BlockOf, EnvOf, EnvNode, EnvEquals;
    match v {
      case Binding(c) => BindingRoundTripIff(c, parse);
      case EnvVars(m) => {
        EnvRoundTrip(m);
        EnvEqualsIff(m, m);
      }
      case _ =>
    }
  }

  /**
   * After syncing, reading back and comparing again, nothing has changed, for any registry of these
   * kinds, exactly when every Telegram chat id is stable under one more trim and strip.
   */
  lemma SyncIsFixpointIff(registry: seq<Field>, name: string, fm: Frontmatter, opts: Values, existing: Option<Row>,
                          defaults: Row, record: Values, parse: string -> Option<Node>)
    requires RegistryGood(registry) && Bindable(registry, fm)
    requires forall f :: f in registry ==> Lookup(opts, f.name) == OptionOf(f, name, fm)
    requires var row := Upsert(registry, opts, existing, defaults);
      forall f :: f in registry ==> Lookup(record, f.name) == RecordOf(f, row, parse)
    ensures (forall f :: f in registry && Compared(f) ==> Same(Lookup(record, f.name), Lookup(opts, f.name)))
      <==> (forall f :: f in registry && Compared(f) ==> Stable(OptionOf(f, name, fm)))
  {
    hide T.CleanId, CellOf, ReadBack, OptionOf, Same, Stable, Fits, Upsert, Bindable;
    var row := Upsert(registry, opts, existing, defaults);
    forall f | f in registry && Compared(f)
      ensures Same(Lookup(record, f.name), Lookup(opts, f.name)) <==> Stable(OptionOf(f, name, fm))
    {
      OwnColumn(registry, opts, existing, defaults, f);
      OptionFits(registry, f, name, fm);
      ValueRoundTripIff(f.kind, OptionOf(f, name, fm), parse);
    }
  }

  lemma BindableField(registry: seq<Field>, fm: Frontmatter, f: Field)
    requires Bindable(registry, fm) && f in registry
    ensures f.kind == Scalar ==> !ValueOf(f, fm).Tree?
  {
  }

  /** The whole cycle: build, upsert, read back, compare. */
  method SyncOnce(registry: seq<Field>, name: string, fm: Frontmatter, existing: Option<Row>, defaults: Row,
                  parse: string -> Option<Node>) returns (row: Row, changed: bool)
    requires RegistryGood(registry) && Bindable(registry, fm)
    ensures changed <==> exists f :: f in registry && Compared(f) && !Stable(OptionOf(f, name, fm))
    ensures forall f :: f in registry && (f.upsertable || existing.None?) ==> Stored(f, name, fm, ColumnOf(row, f.column))
    ensures existing.Some? ==> forall c :: (forall f :: f in registry && f.upsertable ==> f.column != c) ==>
      ColumnOf(row, c) == ColumnOf(existing.value, c)
  {
    hide CellOf, ReadBack, OptionOf, Same, Stable, Upsert, Bindable, Stored, T.CleanId;
    var opts := BuildUpsertOpts(registry, name, fm);
    row := Upsert(registry, opts, existing, defaults);
    var record := MapConfigFromRow(registry, row, parse);
    changed := ConfigFieldsChanged(registry, record, opts);
    SyncIsFixpointIff(registry, name, fm, opts, existing, defaults, record, parse);
    forall f | f in registry && (f.upsertable || existing.None?) ensures Stored(f, name, fm, ColumnOf(row, f.column)) {
      OwnColumn(registry, opts, existing, defaults, f);
      BindableField(registry, fm, f);
      OptionIsStored(f, name, fm);
    }
    if existing.Some? {
      forall c | forall f :: f in registry && f.upsertable ==> f.column != c
        ensures ColumnOf(row, c) == ColumnOf(existing.value, c)
      {
        OtherColumns(registry, opts, existing, defaults, c);
      }
    }
  }

  /** A chat id in two pairs of quotes is read differently at every pass. */
  lemma DoublyQuotedIsUnstable()
    ensures T.CleanId("\"'1'\"") == "'1'" && T.CleanId("'1'") == "1"
  {
    TrimKeepsTrimmed("\"'1'\"");
    TrimKeepsTrimmed("'1'");
    assert "\"'1'\""[1..4] == "'1'" && "'1'"[1..2] == "1";
  }
}
