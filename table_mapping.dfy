/**
 * Table remapping (compare_sql.py, map_table_names): every table reference
 * whose base name is a key of the mapping gets the name, schema and catalog
 * of the parsed replacement, and keeps its own alias.
 */
module TableMapping {
  import opened Wrappers
  import opened SqlTree
  import Comments

  /** Base name of a table reference to its replacement, possibly qualified ("lake.default.sales"). */
  type Mapping = map<string, string>

  /**
   * What the front-end gives back for a replacement string: it parses
   * "SELECT * FROM <replacement>" and takes the first table reference found.
   * The parse may raise (ParseFailed) or find no table (NoTable).
   */
  datatype TableParse =
    | ParseFailed(message: string)
    | NoTable
    | Parsed(base: Ident, db: Option<Ident>, catalog: Option<Ident>)

  /** The foreign parse of a replacement string. */
  type TableParser = string -> TableParse

  /** A replacement string that did not parse; the error leaves the remapping. */
  datatype MappingError = MappingError(key: string, replacement: string, message: string)

  /** Remapping of one table reference: lookup by exact key, then overwrite of its three name parts. */
  function RemapTable(t: Node, mapping: Mapping, parse: TableParser): (r: Result<Node, MappingError>)
    requires t.Table?
    ensures r.Err? <==> t.base.name in mapping && parse(mapping[t.base.name]).ParseFailed?
    ensures r.Err? ==> r.error.key == t.base.name && r.error.replacement == mapping[t.base.name]
    ensures r.Ok? ==> r.value.Table? && r.value.comments == t.comments && r.value.alias == t.alias
    ensures t.base.name !in mapping || parse(mapping[t.base.name]).NoTable? ==> r == Ok(t)
    ensures t.base.name in mapping && parse(mapping[t.base.name]).Parsed? ==>
      var p := parse(mapping[t.base.name]);
      r.Ok? && r.value.base == p.base && r.value.db == p.db && r.value.catalog == p.catalog
  {
    var key := t.base.name;
    if key !in mapping then Ok(t)
    else
      match parse(mapping[key])
      case ParseFailed(msg) => Err(MappingError(key, mapping[key], msg))
      case NoTable => Ok(t)
      case Parsed(base, db, catalog) => Ok(t.(base := base, db := db, catalog := catalog))
  }

  /** The remapping pass over a whole tree; the first replacement that fails to parse aborts it. */
  function Remap(n: Node, mapping: Mapping, parse: TableParser): Result<Node, MappingError>
    decreases n
  {
    match n
    case Literal(_, _, _) => Ok(n)
    case Column(_, _, _) => Ok(n)
    case DataType(_, _) => Ok(n)
    case Cast(c, x, to) =>
      var x' :- Remap(x, mapping, parse);
      var to' :- Remap(to, mapping, parse);
      Ok(Cast(c, x', to'))
    case Func(c, name, x, args) =>
      var x' :- Remap(x, mapping, parse);
      var args' :- RemapAll(args, mapping, parse);
      Ok(Func(c, name, x', args'))
    case Table(_, _, _, _, _) => RemapTable(n, mapping, parse)
    case Create(c, kind, temp, props, body) =>
      var props' :- RemapAll(props, mapping, parse);
      var body' :- RemapAll(body, mapping, parse);
      Ok(Create(c, kind, temp, props', body'))
    case Other(c, tag, children) =>
      var children' :- RemapAll(children, mapping, parse);
      Ok(Other(c, tag, children'))
  }

  function RemapAll(s: seq<Node>, mapping: Mapping, parse: TableParser): Result<seq<Node>, MappingError>
    decreases s
  {
    if s == [] then Ok([])
    else
      var head :- Remap(s[0], mapping, parse);
      var tail :- RemapAll(s[1..], mapping, parse);
      Ok([head] + tail)
  }

  /** The table references of a tree, in pre-order. */
  function TableRefs(n: Node): (r: seq<Node>)
    ensures forall i :: 0 <= i < |r| ==> r[i].Table?
    decreases n
  {
    match n
    case Cast(_, x, to) => TableRefs(x) + TableRefs(to)
    case Func(_, _, x, args) => TableRefs(x) + TableRefsAll(args)
    case Table(_, _, _, _, _) => [n]
    case Create(_, _, _, props, body) => TableRefsAll(props) + TableRefsAll(body)
    case Other(_, _, children) => TableRefsAll(children)
    case _ => []
  }

  function TableRefsAll(s: seq<Node>): (r: seq<Node>)
    ensures forall i :: 0 <= i < |r| ==> r[i].Table?
    decreases s
  {
    if s == [] then [] else TableRefs(s[0]) + TableRefsAll(s[1..])
  }

  /** Two trees that are equal everywhere except inside table references. */
  predicate SameOutsideTables(a: Node, b: Node)
    decreases a
  {
    match a
    case Cast(c, x, to) => b.Cast? && b.comments == c && SameOutsideTables(x, b.expr) && SameOutsideTables(to, b.to)
    case Func(c, name, x, args) =>
      b.Func? && b.comments == c && b.name == name && SameOutsideTables(x, b.expr) && AllSameOutsideTables(args, b.args)
    case Table(_, _, _, _, _) => b.Table?
    case Create(c, kind, temp, props, body) =>
      b.Create? && b.comments == c && b.kind == kind && b.temporary == temp
      && AllSameOutsideTables(props, b.properties) && AllSameOutsideTables(body, b.body)
    case Other(c, tag, children) => b.Other? && b.comments == c && b.tag == tag && AllSameOutsideTables(children, b.children)
    case _ => b == a
  }

  predicate AllSameOutsideTables(s: seq<Node>, t: seq<Node>)
    decreases s
  {
    |s| == |t| && forall i :: 0 <= i < |s| ==> SameOutsideTables(s[i], t[i])
  }

  /** Each table reference of `us` is the remapping of the one at the same place in `ts`. */
  predicate TablesRemapped(ts: seq<Node>, us: seq<Node>, mapping: Mapping, parse: TableParser)
  {
    |ts| == |us| && forall i :: 0 <= i < |ts| ==> ts[i].Table? && RemapTable(ts[i], mapping, parse) == Ok(us[i])
  }

  lemma TablesRemappedConcat(ts1: seq<Node>, us1: seq<Node>, ts2: seq<Node>, us2: seq<Node>, mapping: Mapping, parse: TableParser)
    requires TablesRemapped(ts1, us1, mapping, parse) && TablesRemapped(ts2, us2, mapping, parse)
    ensures TablesRemapped(ts1 + ts2, us1 + us2, mapping, parse)
  {
  }

  /**
   * A successful remapping changes nothing outside table references, and each
   * table reference of the result is the remapping of the one it replaces.
   */
  lemma {:induction false} RemapChangesOnlyTables(n: Node, mapping: Mapping, parse: TableParser)
    requires Remap(n, mapping, parse).Ok?
    ensures SameOutsideTables(n, Remap(n, mapping, parse).value)
    ensures TablesRemapped(TableRefs(n), TableRefs(Remap(n, mapping, parse).value), mapping, parse)
    decreases n
  {
    var r := Remap(n, mapping, parse).value;
    match n
    case Literal(_, _, _) =>
    case Column(_, _, _) =>
    case DataType(_, _) =>
    case Cast(_, x, to) =>
      RemapChangesOnlyTables(x, mapping, parse);
      RemapChangesOnlyTables(to, mapping, parse);
      TablesRemappedConcat(TableRefs(x), TableRefs(r.expr), TableRefs(to), TableRefs(r.to), mapping, parse);
    case Func(_, _, x, args) =>
      RemapChangesOnlyTables(x, mapping, parse);
      RemapAllChangesOnlyTables(args, mapping, parse);
      TablesRemappedConcat(TableRefs(x), TableRefs(r.expr), TableRefsAll(args), TableRefsAll(r.args), mapping, parse);
    case Table(_, _, _, _, _) =>
    case Create(_, _, _, props, body) =>
      RemapAllChangesOnlyTables(props, mapping, parse);
      RemapAllChangesOnlyTables(body, mapping, parse);
      TablesRemappedConcat(TableRefsAll(props), TableRefsAll(r.properties), TableRefsAll(body), TableRefsAll(r.body), mapping, parse);
    case Other(_, _, children) =>
      RemapAllChangesOnlyTables(children, mapping, parse);
  }

  lemma {:induction false} RemapAllChangesOnlyTables(s: seq<Node>, mapping: Mapping, parse: TableParser)
    requires RemapAll(s, mapping, parse).Ok?
    ensures AllSameOutsideTables(s, RemapAll(s, mapping, parse).value)
    ensures TablesRemapped(TableRefsAll(s), TableRefsAll(RemapAll(s, mapping, parse).value), mapping, parse)
    decreases s
  {
    if s != [] {
      var r := RemapAll(s, mapping, parse).value;
      RemapChangesOnlyTables(s[0], mapping, parse);
      RemapAllChangesOnlyTables(s[1..], mapping, parse);
      assert r == [r[0]] + r[1..];
      TablesRemappedConcat(TableRefs(s[0]), TableRefs(r[0]), TableRefsAll(s[1..]), TableRefsAll(r[1..]), mapping, parse);
    }
  }

  /** The base names of table references whose replacement raises when parsed. */
  function FailingKeys(ts: seq<Node>, mapping: Mapping, parse: TableParser): set<string>
  {
    set i | 0 <= i < |ts| && ts[i].Table? && ts[i].base.name in mapping
                           && parse(mapping[ts[i].base.name]).ParseFailed? :: ts[i].base.name
  }

  lemma FailingKeysConcat(ts1: seq<Node>, ts2: seq<Node>, mapping: Mapping, parse: TableParser)
    ensures FailingKeys(ts1 + ts2, mapping, parse) == FailingKeys(ts1, mapping, parse) + FailingKeys(ts2, mapping, parse)
  {
    var ts := ts1 + ts2;
    forall k | k in FailingKeys(ts1, mapping, parse) ensures k in FailingKeys(ts, mapping, parse) {
      var i :| 0 <= i < |ts1| && ts1[i].Table? && ts1[i].base.name == k && k in mapping && parse(mapping[k]).ParseFailed?;
      assert ts[i] == ts1[i];
    }
    forall k | k in FailingKeys(ts2, mapping, parse) ensures k in FailingKeys(ts, mapping, parse) {
      var i :| 0 <= i < |ts2| && ts2[i].Table? && ts2[i].base.name == k && k in mapping && parse(mapping[k]).ParseFailed?;
      assert ts[|ts1| + i] == ts2[i];
    }
    forall k | k in FailingKeys(ts, mapping, parse)
      ensures k in FailingKeys(ts1, mapping, parse) + FailingKeys(ts2, mapping, parse)
    {
      var i :| 0 <= i < |ts| && ts[i].Table? && ts[i].base.name == k && k in mapping && parse(mapping[k]).ParseFailed?;
      if i < |ts1| {
        assert ts1[i] == ts[i];
      } else {
        assert ts2[i - |ts1|] == ts[i];
      }
    }
  }

  /**
   * The remapping fails exactly when a table reference of the tree has a
   * mapped base name whose replacement does not parse, and the error names
   * one such base name.
   */
  lemma {:induction false} RemapFailsIff(n: Node, mapping: Mapping, parse: TableParser)
    ensures Remap(n, mapping, parse).Err? <==> FailingKeys(TableRefs(n), mapping, parse) != {}
    ensures Remap(n, mapping, parse).Err? ==> Remap(n, mapping, parse).error.key in FailingKeys(TableRefs(n), mapping, parse)
    decreases n
  {
    match n
    case Literal(_, _, _) =>
    case Column(_, _, _) =>
    case DataType(_, _) =>
    case Cast(_, x, to) =>
      RemapFailsIff(x, mapping, parse);
      RemapFailsIff(to, mapping, parse);
      FailingKeysConcat(TableRefs(x), TableRefs(to), mapping, parse);
    case Func(_, _, x, args) =>
      RemapFailsIff(x, mapping, parse);
      RemapAllFailsIff(args, mapping, parse);
      FailingKeysConcat(TableRefs(x), TableRefsAll(args), mapping, parse);
    case Table(_, _, _, _, _) =>
      assert TableRefs(n) == [n];
      if RemapTable(n, mapping, parse).Err? {
        assert [n][0] == n;
        assert n.base.name in FailingKeys([n], mapping, parse);
      } else {
        assert FailingKeys([n], mapping, parse) == {};
      }
    case Create(_, _, _, props, body) =>
      RemapAllFailsIff(props, mapping, parse);
      RemapAllFailsIff(body, mapping, parse);
      FailingKeysConcat(TableRefsAll(props), TableRefsAll(body), mapping, parse);
    case Other(_, _, children) =>
      RemapAllFailsIff(children, mapping, parse);
  }

  lemma {:induction false} RemapAllFailsIff(s: seq<Node>, mapping: Mapping, parse: TableParser)
    ensures RemapAll(s, mapping, parse).Err? <==> FailingKeys(TableRefsAll(s), mapping, parse) != {}
    ensures RemapAll(s, mapping, parse).Err? ==> RemapAll(s, mapping, parse).error.key in FailingKeys(TableRefsAll(s), mapping, parse)
    decreases s
  {
    if s == [] {
      assert FailingKeys([], mapping, parse) == {};
    } else {
      RemapFailsIff(s[0], mapping, parse);
      RemapAllFailsIff(s[1..], mapping, parse);
      FailingKeysConcat(TableRefs(s[0]), TableRefsAll(s[1..]), mapping, parse);
    }
  }

  /** A tree none of whose table references has a mapped base name comes back unchanged. */
  lemma {:induction false} RemapUnmappedIdentity(n: Node, mapping: Mapping, parse: TableParser)
    requires forall i :: 0 <= i < |TableRefs(n)| ==> TableRefs(n)[i].base.name !in mapping
    ensures Remap(n, mapping, parse) == Ok(n)
    decreases n
  {
    match n
    case Literal(_, _, _) =>
    case Column(_, _, _) =>
    case DataType(_, _) =>
    case Cast(_, x, to) =>
      assert TableRefs(n) == TableRefs(x) + TableRefs(to);
      forall i | 0 <= i < |TableRefs(x)| ensures TableRefs(x)[i].base.name !in mapping {
        assert TableRefs(n)[i] == TableRefs(x)[i];
      }
      forall i | 0 <= i < |TableRefs(to)| ensures TableRefs(to)[i].base.name !in mapping {
        assert TableRefs(n)[|TableRefs(x)| + i] == TableRefs(to)[i];
      }
      RemapUnmappedIdentity(x, mapping, parse);
      RemapUnmappedIdentity(to, mapping, parse);
    case Func(_, _, x, args) =>
      assert TableRefs(n) == TableRefs(x) + TableRefsAll(args);
      forall i | 0 <= i < |TableRefs(x)| ensures TableRefs(x)[i].base.name !in mapping {
        assert TableRefs(n)[i] == TableRefs(x)[i];
      }
      forall i | 0 <= i < |TableRefsAll(args)| ensures TableRefsAll(args)[i].base.name !in mapping {
        assert TableRefs(n)[|TableRefs(x)| + i] == TableRefsAll(args)[i];
      }
      RemapUnmappedIdentity(x, mapping, parse);
      RemapAllUnmappedIdentity(args, mapping, parse);
    case Table(_, _, _, _, _) =>
      assert TableRefs(n)[0] == n;
    case Create(_, _, _, props, body) =>
      assert TableRefs(n) == TableRefsAll(props) + TableRefsAll(body);
      forall i | 0 <= i < |TableRefsAll(props)| ensures TableRefsAll(props)[i].base.name !in mapping {
        assert TableRefs(n)[i] == TableRefsAll(props)[i];
      }
      forall i | 0 <= i < |TableRefsAll(body)| ensures TableRefsAll(body)[i].base.name !in mapping {
        assert TableRefs(n)[|TableRefsAll(props)| + i] == TableRefsAll(body)[i];
      }
      RemapAllUnmappedIdentity(props, mapping, parse);
      RemapAllUnmappedIdentity(body, mapping, parse);
    case Other(_, _, children) =>
      assert TableRefs(n) == TableRefsAll(children);
      RemapAllUnmappedIdentity(children, mapping, parse);
  }

  lemma {:induction false} RemapAllUnmappedIdentity(s: seq<Node>, mapping: Mapping, parse: TableParser)
    requires forall i :: 0 <= i < |TableRefsAll(s)| ==> TableRefsAll(s)[i].base.name !in mapping
    ensures RemapAll(s, mapping, parse) == Ok(s)
    decreases s
  {
    if s != [] {
      var ts := TableRefsAll(s);
      assert ts == TableRefs(s[0]) + TableRefsAll(s[1..]);
      forall i | 0 <= i < |TableRefs(s[0])| ensures TableRefs(s[0])[i].base.name !in mapping {
        assert ts[i] == TableRefs(s[0])[i];
      }
      forall i | 0 <= i < |TableRefsAll(s[1..])| ensures TableRefsAll(s[1..])[i].base.name !in mapping {
        assert ts[|TableRefs(s[0])| + i] == TableRefsAll(s[1..])[i];
      }
      RemapUnmappedIdentity(s[0], mapping, parse);
      RemapAllUnmappedIdentity(s[1..], mapping, parse);
      assert s == [s[0]] + s[1..];
    }
  }

  /**
   * `SELECT sales.amount FROM sales s` with sales -> lake.default.sales: the
   * table reference becomes lake.default.sales, still aliased s, and the
   * column qualifier `sales` is not touched.
   */
  lemma AliasPreservedExample(parse: TableParser)
    requires parse("lake.default.sales") ==
      Parsed(Ident([], "sales", false), Some(Ident([], "default", false)), Some(Ident([], "lake", false)))
    ensures
      var column := Column([], Ident([], "amount", false), Some(Ident([], "sales", false)));
      var before := Other([], "select", [column, Table([], Ident([], "sales", false), None, None, Some(Ident([], "s", false)))]);
      var after := Other([], "select", [column, Table([], Ident([], "sales", false), Some(Ident([], "default", false)),
                                                      Some(Ident([], "lake", false)), Some(Ident([], "s", false)))]);
      Remap(before, map["sales" := "lake.default.sales"], parse) == Ok(after)
  {
    var m := map["sales" := "lake.default.sales"];
    var column := Column([], Ident([], "amount", false), Some(Ident([], "sales", false)));
    var table := Table([], Ident([], "sales", false), None, None, Some(Ident([], "s", false)));
    var table' := Table([], Ident([], "sales", false), Some(Ident([], "default", false)),
                        Some(Ident([], "lake", false)), Some(Ident([], "s", false)));
    assert Remap(table, m, parse) == Ok(table');
    assert [table][0] == table && [table][1..] == [];
    assert RemapAll([], m, parse) == Ok([]);
    assert [table'] + [] == [table'];
    assert RemapAll([table], m, parse) == Ok([table']);
    assert [column, table][0] == column && [column, table][1..] == [table];
    assert Remap(column, m, parse) == Ok(column);
    assert [column] + [table'] == [column, table'];
    assert RemapAll([column, table], m, parse) == Ok([column, table']);
  }

  /** The comment pass keeps every table reference in its place, only without comments. */
  lemma {:induction false} ClearKeepsTableRefs(n: Node)
    ensures |TableRefs(Comments.ClearComments(n))| == |TableRefs(n)|
    ensures forall i :: 0 <= i < |TableRefs(n)| ==>
      TableRefs(Comments.ClearComments(n))[i] == Comments.ClearComments(TableRefs(n)[i])
    decreases n
  {
    match n
    case Cast(_, x, to) =>
      ClearKeepsTableRefs(x);
      ClearKeepsTableRefs(to);
    case Func(_, _, x, args) =>
      ClearKeepsTableRefs(x);
      ClearAllKeepsTableRefs(args);
    case Create(_, _, _, props, body) =>
      ClearAllKeepsTableRefs(props);
      ClearAllKeepsTableRefs(body);
    case Other(_, _, children) =>
      ClearAllKeepsTableRefs(children);
    case _ =>
  }

  lemma {:induction false} ClearAllKeepsTableRefs(s: seq<Node>)
    ensures |TableRefsAll(Comments.ClearAll(s))| == |TableRefsAll(s)|
    ensures forall i :: 0 <= i < |TableRefsAll(s)| ==>
      TableRefsAll(Comments.ClearAll(s))[i] == Comments.ClearComments(TableRefsAll(s)[i])
    decreases s
  {
    if s != [] {
      var c := Comments.ClearAll(s);
      assert c[0] == Comments.ClearComments(s[0]);
      assert c[1..] == Comments.ClearAll(s[1..]);
      assert TableRefsAll(c) == TableRefs(c[0]) + TableRefsAll(c[1..]);
      ClearKeepsTableRefs(s[0]);
      ClearAllKeepsTableRefs(s[1..]);
    }
  }

  /** Every replacement that parses to a table yields name parts without comments. */
  predicate ReplacementsUncommented(mapping: Mapping, parse: TableParser) {
    forall k :: k in mapping && parse(mapping[k]).Parsed? ==>
      var p := parse(mapping[k]);
      p.base.comments == [] && Comments.OptUncommented(p.db) && Comments.OptUncommented(p.catalog)
  }

  /** Remapping an uncommented tree adds no comment when the parsed replacements carry none. */
  lemma {:induction false} RemapKeepsUncommented(n: Node, mapping: Mapping, parse: TableParser)
    requires Comments.Uncommented(n) && ReplacementsUncommented(mapping, parse)
    requires Remap(n, mapping, parse).Ok?
    ensures Comments.Uncommented(Remap(n, mapping, parse).value)
    decreases n
  {
    match n
    case Cast(_, x, to) =>
      RemapKeepsUncommented(x, mapping, parse);
      RemapKeepsUncommented(to, mapping, parse);
    case Func(_, _, x, args) =>
      RemapKeepsUncommented(x, mapping, parse);
      RemapAllKeepsUncommented(args, mapping, parse);
    case Create(_, _, _, props, body) =>
      RemapAllKeepsUncommented(props, mapping, parse);
      RemapAllKeepsUncommented(body, mapping, parse);
    case Other(_, _, children) =>
      RemapAllKeepsUncommented(children, mapping, parse);
    case _ =>
  }

  lemma {:induction false} RemapAllKeepsUncommented(s: seq<Node>, mapping: Mapping, parse: TableParser)
    requires Comments.AllUncommented(s) && ReplacementsUncommented(mapping, parse)
    requires RemapAll(s, mapping, parse).Ok?
    ensures Comments.AllUncommented(RemapAll(s, mapping, parse).value)
    decreases s
  {
    if s != [] {
      var r := RemapAll(s, mapping, parse).value;
      RemapKeepsUncommented(s[0], mapping, parse);
      RemapAllKeepsUncommented(s[1..], mapping, parse);
      assert r == [r[0]] + r[1..];
    }
  }
}
