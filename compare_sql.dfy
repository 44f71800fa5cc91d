/**
 * The pipeline one statement goes through (preprocess_tree) and the
 * statement-by-statement verdict of compare_sql_files (compare_sql.py).
 * Everything the SQL library does — parsing, transpiling, its final
 * normaliser and serialising — is a parameter, bundled in a FrontEnd.
 */
module CompareSql {
  import opened Wrappers
  import opened SqlTree
  import Comments
  import TableMapping
  import Canonicalize

  datatype Dialect = Oracle | Trino

  /** The foreign operations of the SQL library the comparison relies on. */
  datatype FrontEnd = FrontEnd(
    /** Parses a whole text in a dialect into its statements; may raise. */
    parse: (string, Dialect) -> Result<seq<Node>, string>,
    /** Serialises an Oracle statement, transpiles it to Trino and parses the first result; may raise. */
    transpile: Node -> Result<Node, string>,
    /** Parses a mapping replacement and finds its table reference. */
    parseTable: TableMapping.TableParser,
    /** The library's generic normaliser (quoting, aliases, literals). */
    normalize: Node -> Node,
    /** Serialises a tree to text. */
    serialize: Node -> string)

  /** The two-part answer of compare_sql_files: `Equivalent?` is its boolean, the rest its message. */
  datatype Verdict =
    | Equivalent
    | CountMismatch(oracleCount: nat, trinoCount: nat)
      /** `index` is 1-based, as in the report. */
    | TranspileFailed(index: nat, message: string)
    | NotEquivalent(index: nat, oracleSql: string, trinoSql: string)
      /** Any other exception, caught by the outermost handler. */
    | UnexpectedError(message: string)

  // ---------------------------------------------------------------------
  // preprocess_tree

  /** The table mapping applies only when one is given and it is not empty. */
  predicate MappingApplies(mapping: Option<TableMapping.Mapping>) {
    mapping.Some? && |mapping.value| > 0
  }

  /** Steps 1 to 3 of preprocess_tree: comments, table names, constructs. */
  function RewriteTree(tree: Node, mapping: Option<TableMapping.Mapping>, parse: TableMapping.TableParser)
    : (r: Result<Node, TableMapping.MappingError>)
    ensures !MappingApplies(mapping) ==> r.Ok?
  {
    var cleared := Comments.ClearComments(tree);
    var mapped :- if MappingApplies(mapping) then TableMapping.Remap(cleared, mapping.value, parse) else Ok(cleared);
    Ok(Canonicalize.Transform(mapped))
  }

  /** preprocess_tree: the three steps, then the library's normaliser. */
  function PreprocessTree(tree: Node, mapping: Option<TableMapping.Mapping>, parse: TableMapping.TableParser,
                          normalize: Node -> Node): (r: Result<Node, TableMapping.MappingError>)
    ensures !MappingApplies(mapping) ==> r.Ok?
  {
    var rewritten :- RewriteTree(tree, mapping, parse);
    Ok(normalize(rewritten))
  }

  /** A mapping none of whose keys names a table of the tree changes nothing, as if there were none. */
  lemma UnusedMappingIsSkipped(tree: Node, mapping: TableMapping.Mapping, parse: TableMapping.TableParser)
    requires forall i :: 0 <= i < |TableMapping.TableRefs(tree)| ==> TableMapping.TableRefs(tree)[i].base.name !in mapping
    ensures RewriteTree(tree, Some(mapping), parse) == RewriteTree(tree, None, parse)
  {
    var cleared := Comments.ClearComments(tree);
    TableMapping.ClearKeepsTableRefs(tree);
    forall i | 0 <= i < |TableMapping.TableRefs(cleared)|
      ensures TableMapping.TableRefs(cleared)[i].base.name !in mapping
    {
      assert TableMapping.TableRefs(tree)[i].Table?;
    }
    TableMapping.RemapUnmappedIdentity(cleared, mapping, parse);
  }

  /** Preprocessing fails exactly when some table's mapped replacement does not parse. */
  lemma PreprocessFailsIff(tree: Node, mapping: Option<TableMapping.Mapping>, parse: TableMapping.TableParser,
                           normalize: Node -> Node)
    ensures PreprocessTree(tree, mapping, parse, normalize).Err? <==>
      MappingApplies(mapping) && TableMapping.FailingKeys(TableMapping.TableRefs(tree), mapping.value, parse) != {}
  {
    if MappingApplies(mapping) {
      var cleared := Comments.ClearComments(tree);
      TableMapping.ClearKeepsTableRefs(tree);
      TableMapping.RemapFailsIff(cleared, mapping.value, parse);
      var ts, cs := TableMapping.TableRefs(tree), TableMapping.TableRefs(cleared);
      forall i | 0 <= i < |ts| ensures cs[i].Table? && cs[i].base.name == ts[i].base.name {
        assert ts[i].Table?;
      }
      assert TableMapping.FailingKeys(cs, mapping.value, parse) == TableMapping.FailingKeys(ts, mapping.value, parse);
    }
  }

  /**
   * The tree handed to the library's normaliser carries no comment at all,
   * provided the parsed mapping replacements bring none in.
   */
  lemma RewrittenTreeUncommented(tree: Node, mapping: Option<TableMapping.Mapping>, parse: TableMapping.TableParser)
    requires mapping.Some? ==> TableMapping.ReplacementsUncommented(mapping.value, parse)
    requires RewriteTree(tree, mapping, parse).Ok?
    ensures Comments.Uncommented(RewriteTree(tree, mapping, parse).value)
  {
    var cleared := Comments.ClearComments(tree);
    if MappingApplies(mapping) {
      TableMapping.RemapKeepsUncommented(cleared, mapping.value, parse);
      Canonicalize.TransformKeepsUncommented(TableMapping.Remap(cleared, mapping.value, parse).value);
    } else {
      Canonicalize.TransformKeepsUncommented(cleared);
    }
  }

  // ---------------------------------------------------------------------
  // compare_sql_files

  /** The canonical text of one statement: preprocessing, then serialising. */
  function CanonicalText(fe: FrontEnd, tree: Node, mapping: Option<TableMapping.Mapping>)
    : (r: Result<string, TableMapping.MappingError>)
    ensures !MappingApplies(mapping) ==> r.Ok?
  {
    var final :- PreprocessTree(tree, mapping, fe.parseTable, fe.normalize);
    Ok(fe.serialize(final))
  }

  /**
   * The statement pair at 0-based position i agrees: the Oracle statement
   * transpiles and, preprocessed with the mapping, has the same canonical text
   * as the Trino statement preprocessed without one.
   */
  predicate StatementsAgree(fe: FrontEnd, oracleExpr: Node, trinoExpr: Node, mapping: Option<TableMapping.Mapping>) {
    fe.transpile(oracleExpr).Ok? &&
    CanonicalText(fe, fe.transpile(oracleExpr).value, mapping) == CanonicalText(fe, trinoExpr, None)
  }

  /** One round of the loop: None when the pair agrees, else the verdict it returns with. */
  function StatementCheck(fe: FrontEnd, oracleExpr: Node, trinoExpr: Node, i: nat,
                          mapping: Option<TableMapping.Mapping>): (r: Option<Verdict>)
    ensures r == None <==> StatementsAgree(fe, oracleExpr, trinoExpr, mapping)
    ensures r.Some? ==> !r.value.Equivalent? && !r.value.CountMismatch?
  {
    match fe.transpile(oracleExpr)
    case Err(msg) => Some(TranspileFailed(i + 1, msg))
    case Ok(transpiled) =>
      match CanonicalText(fe, transpiled, mapping)
      case Err(e) => Some(UnexpectedError(e.message))
      case Ok(oracleSql) =>
        var trinoSql := CanonicalText(fe, trinoExpr, None).value;
        if oracleSql != trinoSql then Some(NotEquivalent(i + 1, oracleSql, trinoSql)) else None
  }

  /** The verdict of the loop from 0-based position i on. */
  function VerdictFrom(fe: FrontEnd, oracle: seq<Node>, trino: seq<Node>, mapping: Option<TableMapping.Mapping>, i: nat)
    : Verdict
    requires |oracle| == |trino| && i <= |oracle|
    decreases |oracle| - i
  {
    if i == |oracle| then Equivalent
    else
      match StatementCheck(fe, oracle[i], trino[i], i, mapping)
      case Some(v) => v
      case None => VerdictFrom(fe, oracle, trino, mapping, i + 1)
  }

  /** The verdict of compare_sql_files on two parsed statement sequences. */
  function Compare(fe: FrontEnd, oracle: seq<Node>, trino: seq<Node>, mapping: Option<TableMapping.Mapping>): Verdict {
    if |oracle| != |trino| then CountMismatch(|oracle|, |trino|)
    else VerdictFrom(fe, oracle, trino, mapping, 0)
  }

  /**
   * With differing statement counts the verdict is the count mismatch
   * whatever the front-end and the mapping do with single statements.
   */
  lemma CountMismatchIgnoresStatements(fe1: FrontEnd, fe2: FrontEnd, oracle: seq<Node>, trino: seq<Node>,
                                       m1: Option<TableMapping.Mapping>, m2: Option<TableMapping.Mapping>)
    requires |oracle| != |trino|
    ensures Compare(fe1, oracle, trino, m1) == Compare(fe2, oracle, trino, m2) == CountMismatch(|oracle|, |trino|)
  {
  }

  lemma {:induction false} VerdictFromEquivalentIff(fe: FrontEnd, oracle: seq<Node>, trino: seq<Node>,
                                                    mapping: Option<TableMapping.Mapping>, i: nat)
    requires |oracle| == |trino| && i <= |oracle|
    ensures VerdictFrom(fe, oracle, trino, mapping, i) == Equivalent <==>
      forall j :: i <= j < |oracle| ==> StatementsAgree(fe, oracle[j], trino[j], mapping)
    decreases |oracle| - i
  {
    if i < |oracle| {
      VerdictFromEquivalentIff(fe, oracle, trino, mapping, i + 1);
    }
  }

  /**
   * The sequences are judged equivalent exactly when they have the same
   * length and every statement pair agrees (Oracle side with the mapping,
   * Trino side without).
   */
  lemma CompareEquivalentIff(fe: FrontEnd, oracle: seq<Node>, trino: seq<Node>, mapping: Option<TableMapping.Mapping>)
    ensures Compare(fe, oracle, trino, mapping) == Equivalent <==>
      |oracle| == |trino| && forall j :: 0 <= j < |oracle| ==> StatementsAgree(fe, oracle[j], trino[j], mapping)
  {
    if |oracle| == |trino| {
      VerdictFromEquivalentIff(fe, oracle, trino, mapping, 0);
    }
  }

  lemma {:induction false} VerdictFromFirstFailure(fe: FrontEnd, oracle: seq<Node>, trino: seq<Node>,
                                                   mapping: Option<TableMapping.Mapping>, i: nat)
    requires |oracle| == |trino| && i <= |oracle|
    requires VerdictFrom(fe, oracle, trino, mapping, i) != Equivalent
    ensures exists k ::
              && i <= k < |oracle|
              && (forall j :: i <= j < k ==> StatementsAgree(fe, oracle[j], trino[j], mapping))
              && StatementCheck(fe, oracle[k], trino[k], k, mapping) == Some(VerdictFrom(fe, oracle, trino, mapping, i))
    decreases |oracle| - i
  {
    if StatementCheck(fe, oracle[i], trino[i], i, mapping).None? {
      VerdictFromFirstFailure(fe, oracle, trino, mapping, i + 1);
      var k :| i + 1 <= k < |oracle| && (forall j :: i + 1 <= j < k ==> StatementsAgree(fe, oracle[j], trino[j], mapping))
        && StatementCheck(fe, oracle[k], trino[k], k, mapping) == Some(VerdictFrom(fe, oracle, trino, mapping, i + 1));
      assert forall j :: i <= j < k ==> StatementsAgree(fe, oracle[j], trino[j], mapping);
    }
  }

  /**
   * A failing verdict on equally long sequences comes from the first pair
   * that does not agree: every pair before it agrees; a transpile failure or
   * a text mismatch reports that pair's 1-based position, the error or both
   * canonical texts; any other failure is the Oracle side's preprocessing.
   */
  lemma CompareReportsFirstFailure(fe: FrontEnd, oracle: seq<Node>, trino: seq<Node>, mapping: Option<TableMapping.Mapping>)
    requires |oracle| == |trino|
    requires Compare(fe, oracle, trino, mapping) != Equivalent
    ensures var v := Compare(fe, oracle, trino, mapping);
      exists k ::
        && 0 <= k < |oracle|
        && (forall j :: 0 <= j < k ==> StatementsAgree(fe, oracle[j], trino[j], mapping))
        && !StatementsAgree(fe, oracle[k], trino[k], mapping)
        && (v.TranspileFailed? ==> v.index == k + 1 && fe.transpile(oracle[k]) == Err(v.message))
        && (v.NotEquivalent? ==>
              && v.index == k + 1
              && fe.transpile(oracle[k]).Ok?
              && CanonicalText(fe, fe.transpile(oracle[k]).value, mapping) == Ok(v.oracleSql)
              && CanonicalText(fe, trino[k], None) == Ok(v.trinoSql)
              && v.oracleSql != v.trinoSql)
        && (v.UnexpectedError? ==>
              && fe.transpile(oracle[k]).Ok?
              && CanonicalText(fe, fe.transpile(oracle[k]).value, mapping).Err?)
        && !v.CountMismatch?
  {
    VerdictFromFirstFailure(fe, oracle, trino, mapping, 0);
  }

  /**
   * The loop of compare_sql_files over the two parsed statement sequences:
   * a count mismatch first; then, index by index, transpile the Oracle
   * statement, preprocess both sides, serialise and compare, returning at the
   * first failure.
   */
  method CompareStatements(fe: FrontEnd, oracle: seq<Node>, trino: seq<Node>, mapping: Option<TableMapping.Mapping>)
    returns (v: Verdict)
    ensures v == Compare(fe, oracle, trino, mapping)
    ensures |oracle| != |trino| ==> v == CountMismatch(|oracle|, |trino|)
  {
    if |oracle| != |trino| {
      return CountMismatch(|oracle|, |trino|);
    }
    var i := 0;
    while i < |oracle|
      invariant 0 <= i <= |oracle|
      invariant VerdictFrom(fe, oracle, trino, mapping, i) == Compare(fe, oracle, trino, mapping)
    {
      var trinoExpr := trino[i];
      var transpiled := fe.transpile(oracle[i]);
      if transpiled.Err? {
        return TranspileFailed(i + 1, transpiled.error);
      }
      var finalOracle := PreprocessTree(transpiled.value, mapping, fe.parseTable, fe.normalize);
      if finalOracle.Err? {
        return UnexpectedError(finalOracle.error.message);
      }
      var finalTrino := PreprocessTree(trinoExpr, None, fe.parseTable, fe.normalize);
      var oracleSql := fe.serialize(finalOracle.value);
      var trinoSql := fe.serialize(finalTrino.value);
      if oracleSql != trinoSql {
        return NotEquivalent(i + 1, oracleSql, trinoSql);
      }
      i := i + 1;
    }
    return Equivalent;
  }

  /** compare_sql_files after the files are read: parse both texts, then compare. */
  function CompareTexts(fe: FrontEnd, oracleSql: string, trinoSql: string, mapping: Option<TableMapping.Mapping>): Verdict {
    match fe.parse(oracleSql, Oracle)
    case Err(msg) => UnexpectedError(msg)
    case Ok(oracle) =>
      match fe.parse(trinoSql, Trino)
      case Err(msg) => UnexpectedError(msg)
      case Ok(trino) => Compare(fe, oracle, trino, mapping)
  }

  /**
   * compare_sql_files on the two file contents: the boolean and the detail of
   * its answer. A parse failure on either side ends in the catch-all error.
   */
  method CompareSqlFiles(fe: FrontEnd, oracleSql: string, trinoSql: string, mapping: Option<TableMapping.Mapping>)
    returns (equivalent: bool, v: Verdict)
    ensures v == CompareTexts(fe, oracleSql, trinoSql, mapping)
    ensures equivalent <==> v.Equivalent?
    ensures fe.parse(oracleSql, Oracle).Err? ==> v == UnexpectedError(fe.parse(oracleSql, Oracle).error)
  {
    var oracle := fe.parse(oracleSql, Oracle);
    if oracle.Err? {
      return false, UnexpectedError(oracle.error);
    }
    var trino := fe.parse(trinoSql, Trino);
    if trino.Err? {
      return false, UnexpectedError(trino.error);
    }
    v := CompareStatements(fe, oracle.value, trino.value, mapping);
    equivalent := v.Equivalent?;
  }
}
