# SQL equivalence checker: normalisation pipeline and verdict

This project is a Dafny model of the core of a tool that decides whether an
Oracle SQL script and its Trino migration say the same thing. It covers the
comparison in `compare_sql.py`. Each statement tree goes through
`preprocess_tree`:

1. every comment attached to a node is cleared;
2. table references are renamed through a name mapping;
3. date conversions and CREATE properties are rewritten by an ordered rule list;
4. the SQL library normalises the result.

`compare_sql_files` then compares the two statement sequences index by index
and stops at the first difference.

The SQL library (sqlglot) is not modelled. Its parser, transpiler, normaliser
and serialiser are parameters bundled in `CompareSql.FrontEnd`. So is the parse
of a mapping replacement (`TableMapping.TableParser`). The model proves what
the pipeline does for *any* such library.

Files, one module each:

- `wrappers.dfy`: `Option` and `Result`.
- `sql_tree.dfy`: the syntax tree. A closed `Node` datatype has the kinds
  Literal, Column, DataType, Cast, Func, Table, Create and Other, and every
  node carries a `comments` list. Identifiers are `Ident` values with their own
  comments.
- `comments.dfy`: the comment pass.
- `table_mapping.dfy`: `map_table_names`.
- `canonicalize.dfy`: `transform_node` and the transform pass.
- `compare_sql.dfy`: `preprocess_tree` and the verdict of `compare_sql_files`.

Assumption about the library's traversal (its code is not part of this model):
`Expression.transform` is a single top-down pass.

- It calls `transform_node` on a node first.
- If that returns the same node, possibly edited in place (the Cast and Create
  rules, or no rule at all), the pass goes on into that node's children as they
  are after the edit.
- If it returns a different node (the TO_DATE and STR_TO_TIME rules), that node
  takes the old one's place and is not visited.
- The pass does not repeat until nothing changes.

`Canonicalize.Step` records which of the two cases happened: `Kept` or
`Replaced`.

Where the specification of the system and the code disagree, the model follows the code:

- The specification calls the rewriting a bounded fixpoint that is idempotent and
  gives up with a non-termination error. The code makes one pass, and a second
  pass can change the result (`Canonicalize.NotIdempotent`). Idempotence holds
  only when no date call has another date call or a CREATE inside its first
  argument (`Canonicalize.TransformIdempotentWhenUnnested`).
- The specification collapses the cast only for `CAST(... AS DATE)`. The code does it
  for every target type.
- The specification wants the bare STR_TO_TIME rule to be switchable. The code always
  applies it.
- The specification gives a named mapping-parse error. In the code, a replacement that
  raises lands in the catch-all handler (`UnexpectedError`), and a replacement
  in which no table is found leaves the table unchanged.
- The specification strips properties only from CREATE TABLE/VIEW and makes a
  temporary object non-temporary. The code strips properties from every CREATE,
  sets its kind to `TABLE` when it is temporary, and leaves the temporary flag
  set.
- The specification offers a mode that collects every mismatch. The code stops at the
  first one.

## Model

| member | source | states |
|---|---|---|
| Comments.ClearComments | compare_sql.py:31-34 | no node or identifier of the result has a comment, and the result equals the input in everything but comments |
| Comments.CommentInvariance | compare_sql.py:31-34 | two trees that differ only in their comments become identical after the comment pass |
| Comments.ClearUncommented | compare_sql.py:32-34 | a tree that has no comment comes back exactly as it was (the pass only touches nodes whose comments are non-empty) |
| Comments.ClearCommentsIdempotent | compare_sql.py:31-34 | running the comment pass twice gives the same result as running it once |
| TableMapping.RemapTable | compare_sql.py:15-25 | for one table reference: it fails exactly when its base name is a key and the replacement's parse raises, and the error names that key and replacement; it stays unchanged when the name is not a key or no table is parsed; otherwise its name, schema and catalog become the parsed ones (an absent part clears the original's), and its comments and alias are kept |
| TableMapping.RemapChangesOnlyTables | compare_sql.py:13-25 | a successful remapping leaves everything outside table references equal, columns and their qualifiers included, and each table reference of the result is the remapping of the one at the same place in the input |
| TableMapping.RemapFailsIff | compare_sql.py:13-21 | the remapping fails exactly when some table reference has a mapped base name whose replacement does not parse, and the error names such a base name |
| TableMapping.RemapUnmappedIdentity | compare_sql.py:13-16 | a tree whose table references have no mapped base name comes back unchanged |
| TableMapping.AliasPreservedExample | compare_sql.py:13-25 | `SELECT sales.amount FROM sales s` with `sales -> lake.default.sales` becomes `lake.default.sales` still aliased `s`, with its column qualifier `sales` untouched |
| TableMapping.RemapKeepsUncommented | compare_sql.py:20-25 | remapping adds no comment to a tree without comments when the parsed replacements carry none |
| Canonicalize.CastOverStrToTime | compare_sql.py:43-47 | `CAST(STR_TO_TIME(x, f) AS T)` becomes `CAST(x AS T)` for every type T, T is kept as it is, and the pass continues into x |
| Canonicalize.ToDateLowered | compare_sql.py:49-52 | `TO_DATE(x, ...)` (any letter case) becomes a fresh `CAST(x AS DATE)` and x is not rewritten further |
| Canonicalize.StrToTimeUnwrapped | compare_sql.py:53-56 | a `STR_TO_TIME(x, ...)` that the pass reaches (so not the operand of a cast) becomes x, not rewritten further |
| Canonicalize.CreateStripped | compare_sql.py:58-63 | a CREATE loses all its properties; its kind ends up `TABLE` exactly when it is temporary or already was `TABLE`, a non-temporary kind is kept, the temporary flag stays, and its body is rewritten |
| Canonicalize.CastRuleComesFirst | compare_sql.py:42-56 | the cast rule takes a STR_TO_TIME operand before the bare STR_TO_TIME rule can: `CAST(STR_TO_TIME(TO_DATE(y, f), g) AS T)` becomes `CAST(CAST(y AS DATE) AS T)` |
| Canonicalize.NotIdempotent | compare_sql.py:49-67 | one pass is not a fixpoint: for `TO_DATE(STR_TO_TIME(x, f), g)` a second pass changes the result of the first |
| Canonicalize.TransformReachesCanonical | compare_sql.py:41-67 | when no date call has a date call or a CREATE inside its first argument, no TO_DATE or STR_TO_TIME call remains after the pass and every CREATE is stripped |
| Canonicalize.CanonicalIsFixpoint | compare_sql.py:41-67 | a tree in which no rule can fire comes out of the pass unchanged |
| Canonicalize.TransformIdempotentWhenUnnested | compare_sql.py:67 | on such trees, running the pass twice gives the same result as running it once |
| Canonicalize.TransformKeepsTables | compare_sql.py:41-67 | the pass never alters or invents a table reference: the result's table references are a sub-multiset of the input's |
| Canonicalize.TransformKeepsUncommented | compare_sql.py:41-67 | the pass adds no comment |
| CompareSql.RewriteTree | compare_sql.py:27-67 | the three rewriting steps cannot fail unless a non-empty mapping is given |
| CompareSql.PreprocessTree | compare_sql.py:27-71 | preprocessing, including the library's normaliser, cannot fail unless a non-empty mapping is given, so the Trino side never fails |
| CompareSql.UnusedMappingIsSkipped | compare_sql.py:36-38 | a mapping none of whose keys names a table of the tree gives the same result as no mapping |
| CompareSql.PreprocessFailsIff | compare_sql.py:13-38 | preprocessing fails exactly when a non-empty mapping is given and one of the tree's table references has a mapped name whose replacement does not parse |
| CompareSql.RewrittenTreeUncommented | compare_sql.py:31-67 | no comment reaches the library's normaliser when the parsed replacements carry none |
| CompareSql.CanonicalText | compare_sql.py:109-115 | the canonical text of a statement exists whenever its side has no mapping |
| CompareSql.StatementCheck | compare_sql.py:97-123 | one round of the loop ends with no verdict exactly when the pair agrees (the Oracle statement transpiles, and its canonical text with the mapping equals the Trino statement's canonical text without one); otherwise it gives a failing verdict |
| CompareSql.CountMismatchIgnoresStatements | compare_sql.py:94-95 | with differing statement counts the verdict is the count mismatch, whatever the library and the mapping would do with single statements |
| CompareSql.CompareEquivalentIff | compare_sql.py:94-125 | the verdict is `Equivalent` exactly when the counts match and every pair agrees (mapping on the Oracle side only) |
| CompareSql.CompareReportsFirstFailure | compare_sql.py:97-123 | a failing verdict on equally long sequences comes from the least position that does not agree, with every earlier pair agreeing. A transpile failure or a text mismatch reports that position 1-based, with the error or both canonical texts. Any other failure is the Oracle side's preprocessing |
| CompareSql.CompareStatements | compare_sql.py:94-125 | the loop with its early returns computes exactly `Compare`, and a count mismatch is returned before any statement is looked at |
| CompareSql.CompareSqlFiles | compare_sql.py:90-130 | parses both texts (a parse failure ends in the catch-all error), runs the loop, and answers `True` exactly when the verdict is `Equivalent` |

## Left out

- sqlglot is not modelled: `parse`, `parse_one`, `transpile`, `.sql()`, `find`
  and `normalize.normalize`. They are parameters with no properties assumed.
  `FrontEnd.transpile` covers serialising the Oracle statement, transpiling it,
  taking the first result and parsing it again (lines 103-104).
- Tree changes happen on values, not in place. The walk over the tree, the
  `find_all` loop and the in-place `set`/`replace` calls are structural
  recursion that returns a new tree. The order of visits therefore goes
  unmodelled, and so does aliasing between nodes. Each change touches only the
  node being visited, so the order can affect only which failing mapping entry
  is reported first.
- Library questions are fixed by choice, because none of them can be settled
  from `compare_sql.py`:
  - a function's name is an explicit `name` field;
  - `Cast` is not a kind of `Func`, although in sqlglot it is a subclass;
  - the parsed `db`/`catalog` of a replacement are identifier parts. The library
    gives them as text, and an absent part is modelled as clearing the original;
  - assigning to a cast's `this` (line 46) is taken to work.
- `Canonicalize.Upper` upper-cases ASCII letters only. Python's `str.upper` also
  maps some non-ASCII letters to ASCII ones (`ſ` to `S`).
- Node kinds are reduced to the ones the rules inspect. Every other kind is
  `Other(tag, children)`. A table alias is an identifier, without a column list.
  A function call always has a first argument. Statements that the library
  parses to nothing (`None`) are not represented.
- The regular-expression removal of comments from the raw text (lines 84-88) is
  left out. It depends on Python's `re` semantics. The tree-level comment pass is
  modelled instead.
- Reading the files, the `print` reports and the `__main__` block are left out.
  The human-readable messages become fields of `CompareSql.Verdict`.
- `FileNotFoundError` (lines 127-128) is left out with the file reading. Every
  other exception inside the comparison is `UnexpectedError`: a parse of either
  file, or a mapping replacement that raises.
- `sql_comparer.py` is left out: file input, a PL/SQL-stripping regular
  expression, and fuzzy similarity scoring with floating-point averages.
- `sql_converter.py` is left out: regex-driven splitting, transpiling by the
  library, string joining and file output.
