/**
 * Comment clearing (compare_sql.py, first step of preprocess_tree): every
 * node reached by the walk over the tree gets an empty comment list.
 */
module Comments {
  import opened Wrappers
  import opened SqlTree

  /** Every node and identifier of the tree carries no comment. */
  predicate Uncommented(n: Node)
    decreases n
  {
    n.comments == [] &&
    match n
    case Literal(_, _, _) => true
    case Column(_, col, q) => col.comments == [] && OptUncommented(q)
    case DataType(_, _) => true
    case Cast(_, x, to) => Uncommented(x) && Uncommented(to)
    case Func(_, _, x, args) => Uncommented(x) && AllUncommented(args)
    case Table(_, base, db, catalog, alias) =>
      base.comments == [] && OptUncommented(db) && OptUncommented(catalog) && OptUncommented(alias)
    case Create(_, _, _, props, body) => AllUncommented(props) && AllUncommented(body)
    case Other(_, _, children) => AllUncommented(children)
  }

  predicate AllUncommented(s: seq<Node>)
    decreases s
  {
    forall i :: 0 <= i < |s| ==> Uncommented(s[i])
  }

  predicate OptUncommented(o: Option<Ident>) {
    o.Some? ==> o.value.comments == []
  }

  /** Two identifiers that differ at most in their comments. */
  predicate SameIdent(a: Ident, b: Ident) {
    a.name == b.name && a.quoted == b.quoted
  }

  predicate SameOptIdent(a: Option<Ident>, b: Option<Ident>) {
    a.Some? == b.Some? && (a.Some? ==> SameIdent(a.value, b.value))
  }

  /** Two trees of the same shape and content that differ at most in their comments. */
  predicate SameUpToComments(a: Node, b: Node)
    decreases a
  {
    match a
    case Literal(_, text, isString) => b.Literal? && b.text == text && b.isString == isString
    case Column(_, col, q) => b.Column? && SameIdent(col, b.column) && SameOptIdent(q, b.qualifier)
    case DataType(_, t) => b.DataType? && b.typeName == t
    case Cast(_, x, to) => b.Cast? && SameUpToComments(x, b.expr) && SameUpToComments(to, b.to)
    case Func(_, name, x, args) =>
      b.Func? && b.name == name && SameUpToComments(x, b.expr) && AllSameUpToComments(args, b.args)
    case Table(_, base, db, catalog, alias) =>
      b.Table? && SameIdent(base, b.base) && SameOptIdent(db, b.db)
      && SameOptIdent(catalog, b.catalog) && SameOptIdent(alias, b.alias)
    case Create(_, kind, temp, props, body) =>
      b.Create? && b.kind == kind && b.temporary == temp
      && AllSameUpToComments(props, b.properties) && AllSameUpToComments(body, b.body)
    case Other(_, tag, children) => b.Other? && b.tag == tag && AllSameUpToComments(children, b.children)
  }

  predicate AllSameUpToComments(s: seq<Node>, t: seq<Node>)
    decreases s
  {
    |s| == |t| && forall i :: 0 <= i < |s| ==> SameUpToComments(s[i], t[i])
  }

  function ClearIdent(i: Ident): Ident {
    i.(comments := [])
  }

  function ClearOptIdent(o: Option<Ident>): Option<Ident> {
    match o
    case None => None
    case Some(i) => Some(ClearIdent(i))
  }

  /**
   * The comment pass: the same tree with every comment list emptied. The
   * result has no comment anywhere and differs from the input in nothing else.
   */
  function ClearComments(n: Node): (r: Node)
    ensures Uncommented(r)
    ensures SameUpToComments(n, r)
    decreases n
  {
    match n
    case Literal(_, text, isString) => Literal([], text, isString)
    case Column(_, col, q) => Column([], ClearIdent(col), ClearOptIdent(q))
    case DataType(_, t) => DataType([], t)
    case Cast(_, x, to) => Cast([], ClearComments(x), ClearComments(to))
    case Func(_, name, x, args) => Func([], name, ClearComments(x), ClearAll(args))
    case Table(_, base, db, catalog, alias) =>
      Table([], ClearIdent(base), ClearOptIdent(db), ClearOptIdent(catalog), ClearOptIdent(alias))
    case Create(_, kind, temp, props, body) => Create([], kind, temp, ClearAll(props), ClearAll(body))
    case Other(_, tag, children) => Other([], tag, ClearAll(children))
  }

  function ClearAll(s: seq<Node>): (r: seq<Node>)
    ensures |r| == |s|
    ensures forall i :: 0 <= i < |s| ==> r[i] == ClearComments(s[i])
    decreases s
  {
    if s == [] then [] else [ClearComments(s[0])] + ClearAll(s[1..])
  }

  /** Comment invariance: trees that differ only in comments are equal once cleared. */
  lemma {:induction false} CommentInvariance(a: Node, b: Node)
    requires SameUpToComments(a, b)
    ensures ClearComments(a) == ClearComments(b)
    decreases a
  {
    match a
    case Literal(_, _, _) =>
    case Column(_, _, _) =>
    case DataType(_, _) =>
    case Cast(_, x, to) =>
      CommentInvariance(x, b.expr);
      CommentInvariance(to, b.to);
    case Func(_, _, x, args) =>
      CommentInvariance(x, b.expr);
      AllCommentInvariance(args, b.args);
    case Table(_, _, _, _, _) =>
    case Create(_, _, _, props, body) =>
      AllCommentInvariance(props, b.properties);
      AllCommentInvariance(body, b.body);
    case Other(_, _, children) =>
      AllCommentInvariance(children, b.children);
  }

  lemma {:induction false} AllCommentInvariance(s: seq<Node>, t: seq<Node>)
    requires AllSameUpToComments(s, t)
    ensures ClearAll(s) == ClearAll(t)
    decreases s
  {
    forall i | 0 <= i < |s| ensures ClearAll(s)[i] == ClearAll(t)[i] {
      CommentInvariance(s[i], t[i]);
    }
  }

  /** A tree that already has no comment is left exactly as it is. */
  lemma {:induction false} ClearUncommented(n: Node)
    requires Uncommented(n)
    ensures ClearComments(n) == n
    decreases n
  {
    match n
    case Literal(_, _, _) =>
    case Column(_, _, _) =>
    case DataType(_, _) =>
    case Cast(_, x, to) =>
      ClearUncommented(x);
      ClearUncommented(to);
    case Func(_, _, x, args) =>
      ClearUncommented(x);
      ClearAllUncommented(args);
    case Table(_, _, _, _, _) =>
    case Create(_, _, _, props, body) =>
      ClearAllUncommented(props);
      ClearAllUncommented(body);
    case Other(_, _, children) =>
      ClearAllUncommented(children);
  }

  lemma {:induction false} ClearAllUncommented(s: seq<Node>)
    requires AllUncommented(s)
    ensures ClearAll(s) == s
    decreases s
  {
    forall i | 0 <= i < |s| ensures ClearAll(s)[i] == s[i] {
      ClearUncommented(s[i]);
    }
  }

  /** Running the comment pass twice gives the same tree as running it once. */
  lemma ClearCommentsIdempotent(n: Node)
    ensures ClearComments(ClearComments(n)) == ClearComments(n)
  {
    ClearUncommented(ClearComments(n));
  }
}
