/**
 * Construct rewriting (compare_sql.py, transform_node and the transform pass
 * of preprocess_tree). The rule list is applied in one top-down pass over the
 * tree: a rule that edits a node and returns that same node lets the pass go
 * on into the node's (new) children; a rule that returns a fresh node ends the
 * pass on that branch, so the fresh node is never examined again.
 */
module Canonicalize {
  import opened Wrappers
  import opened SqlTree
  import Comments
  import TableMapping

  /** Upper-casing of a function name, letter by letter (ASCII letters only). */
  function UpperChar(c: char): char {
    if 'a' <= c <= 'z' then (c as int - 32) as char else c
  }

  function Upper(s: string): string {
    seq(|s|, i requires 0 <= i < |s| => UpperChar(s[i]))
  }

  /** `name.upper() == target`. */
  predicate NamedAs(name: string, target: string) {
    Upper(name) == target
  }

  const StrToTime: string := "STR_TO_TIME"
  const ToDate: string := "TO_DATE"
  const TableKind: string := "TABLE"

  /** The DATE type node of the cast that replaces a TO_DATE call. */
  const DateType: Node := DataType([], "DATE")

  /** What transform_node hands back: the node it got (possibly edited in place), or a fresh node. */
  datatype Step = Kept(node: Node) | Replaced(node: Node)

  /** The ordered rule list; the first rule that matches decides. */
  function TransformNode(n: Node): (s: Step)
    ensures s.Kept? ==> Size(s.node) <= Size(n)
  {
    if n.Cast? && n.expr.Func? && NamedAs(n.expr.name, StrToTime) then
      // CAST(STR_TO_TIME(x, f) AS T): the cast's operand becomes x
      Kept(Cast(n.comments, n.expr.expr, n.to))
    else if n.Func? && NamedAs(n.name, ToDate) then
      Replaced(Cast([], n.expr, DateType))
    else if n.Func? && NamedAs(n.name, StrToTime) then
      Replaced(n.expr)
    else if n.Create? then
      Kept(n.(properties := [], kind := if n.temporary then TableKind else n.kind))
    else
      Kept(n)
  }

  /** The single top-down pass. */
  function Transform(n: Node): Node
    decreases Size(n), 1
  {
    match TransformNode(n)
    case Replaced(m) => m
    case Kept(m) => TransformChildren(m)
  }

  /** Continues the pass into the children of a node the rules kept. */
  function TransformChildren(m: Node): Node
    decreases Size(m), 0
  {
    match m
    case Cast(c, x, to) => Cast(c, Transform(x), Transform(to))
    case Func(c, name, x, args) => Func(c, name, Transform(x), TransformAll(args))
    case Create(c, kind, temp, props, body) => Create(c, kind, temp, TransformAll(props), TransformAll(body))
    case Other(c, tag, children) => Other(c, tag, TransformAll(children))
    case _ => m
  }

  function TransformAll(s: seq<Node>): (r: seq<Node>)
    ensures |r| == |s|
    decreases SizeAll(s), 2
  {
    if s == [] then [] else [Transform(s[0])] + TransformAll(s[1..])
  }

  lemma {:induction false} TransformAllAt(s: seq<Node>, i: nat)
    requires i < |s|
    ensures TransformAll(s)[i] == Transform(s[i])
    decreases i
  {
    if i > 0 {
      TransformAllAt(s[1..], i - 1);
    }
  }

  // ---------------------------------------------------------------------
  // Canonical form

  /** A call to one of the two date-conversion functions the rules lower. */
  predicate DateCall(n: Node) {
    n.Func? && (NamedAs(n.name, ToDate) || NamedAs(n.name, StrToTime))
  }

  /** A CREATE whose properties are gone and whose temporary kind reads TABLE. */
  predicate StrippedCreate(n: Node) {
    n.Create? ==> n.properties == [] && (n.temporary ==> n.kind == TableKind)
  }

  /** No rule has anything left to do anywhere in the tree. */
  predicate Canonical(n: Node)
    decreases n
  {
    !DateCall(n) && StrippedCreate(n) &&
    match n
    case Cast(_, x, to) => Canonical(x) && Canonical(to)
    case Func(_, _, x, args) => Canonical(x) && AllCanonical(args)
    case Create(_, _, _, props, body) => AllCanonical(props) && AllCanonical(body)
    case Other(_, _, children) => AllCanonical(children)
    case _ => true
  }

  predicate AllCanonical(s: seq<Node>)
    decreases s
  {
    forall i :: 0 <= i < |s| ==> Canonical(s[i])
  }

  /** No date call and no CREATE anywhere in the tree. */
  predicate Plain(n: Node)
    decreases n
  {
    !DateCall(n) && !n.Create? &&
    match n
    case Cast(_, x, to) => Plain(x) && Plain(to)
    case Func(_, _, x, args) => Plain(x) && AllPlain(args)
    case Other(_, _, children) => AllPlain(children)
    case _ => true
  }

  predicate AllPlain(s: seq<Node>)
    decreases s
  {
    forall i :: 0 <= i < |s| ==> Plain(s[i])
  }

  /** The first argument of every date call in the tree is plain. */
  predicate Unnested(n: Node)
    decreases n
  {
    (DateCall(n) ==> Plain(n.expr)) &&
    match n
    case Cast(_, x, to) => Unnested(x) && Unnested(to)
    case Func(_, _, x, args) => Unnested(x) && AllUnnested(args)
    case Create(_, _, _, props, body) => AllUnnested(props) && AllUnnested(body)
    case Other(_, _, children) => AllUnnested(children)
    case _ => true
  }

  predicate AllUnnested(s: seq<Node>)
    decreases s
  {
    forall i :: 0 <= i < |s| ==> Unnested(s[i])
  }

  lemma {:induction false} PlainIsCanonical(n: Node)
    requires Plain(n)
    ensures Canonical(n)
    decreases n
  {
    match n
    case Cast(_, x, to) =>
      PlainIsCanonical(x);
      PlainIsCanonical(to);
    case Func(_, _, x, args) =>
      PlainIsCanonical(x);
      forall i | 0 <= i < |args| ensures Canonical(args[i]) { PlainIsCanonical(args[i]); }
    case Create(_, _, _, _, _) =>
    case Other(_, _, children) =>
      forall i | 0 <= i < |children| ensures Canonical(children[i]) { PlainIsCanonical(children[i]); }
    case _ =>
  }

  /**
   * When no date call has a date call or a CREATE in its first argument, the
   * one pass leaves no work for the rules: no TO_DATE or STR_TO_TIME call
   * remains and every CREATE is stripped.
   */
  lemma {:induction false} TransformReachesCanonical(n: Node)
    requires Unnested(n)
    ensures Canonical(Transform(n))
    decreases Size(n), 1
  {
    if n.Cast? && n.expr.Func? && NamedAs(n.expr.name, StrToTime) {
      assert Size(n.expr.expr) < Size(n);
      TransformReachesCanonical(n.expr.expr);
      TransformReachesCanonical(n.to);
    } else if n.Func? && DateCall(n) {
      PlainIsCanonical(n.expr);
    } else {
      match n
      case Cast(_, x, to) =>
        TransformReachesCanonical(x);
        TransformReachesCanonical(to);
      case Func(_, _, x, args) =>
        TransformReachesCanonical(x);
        TransformAllReachesCanonical(args);
      case Create(_, _, _, _, body) =>
        TransformAllReachesCanonical(body);
      case Other(_, _, children) =>
        TransformAllReachesCanonical(children);
      case _ =>
    }
  }

  lemma {:induction false} TransformAllReachesCanonical(s: seq<Node>)
    requires AllUnnested(s)
    ensures AllCanonical(TransformAll(s))
    decreases SizeAll(s), 2
  {
    forall i | 0 <= i < |s| ensures Canonical(TransformAll(s)[i]) {
      SizeAllElement(s, i);
      TransformAllAt(s, i);
      TransformReachesCanonical(s[i]);
    }
  }

  lemma {:induction false} SizeAllElement(s: seq<Node>, i: nat)
    requires i < |s|
    ensures Size(s[i]) <= SizeAll(s)
    decreases i
  {
    if i > 0 {
      SizeAllElement(s[1..], i - 1);
      assert s[1..][i - 1] == s[i];
    }
  }

  /** A tree in canonical form is a fixpoint of the pass. */
  lemma {:induction false} CanonicalIsFixpoint(n: Node)
    requires Canonical(n)
    ensures Transform(n) == n
    decreases n
  {
    match n
    case Cast(_, x, to) =>
      CanonicalIsFixpoint(x);
      CanonicalIsFixpoint(to);
    case Func(_, _, x, args) =>
      CanonicalIsFixpoint(x);
      AllCanonicalIsFixpoint(args);
    case Create(_, _, _, props, body) =>
      AllCanonicalIsFixpoint(body);
    case Other(_, _, children) =>
      AllCanonicalIsFixpoint(children);
    case _ =>
  }

  lemma {:induction false} AllCanonicalIsFixpoint(s: seq<Node>)
    requires AllCanonical(s)
    ensures TransformAll(s) == s
    decreases s
  {
    forall i | 0 <= i < |s| ensures TransformAll(s)[i] == s[i] {
      TransformAllAt(s, i);
      CanonicalIsFixpoint(s[i]);
    }
  }

  /** On trees without nested date calls, running the pass twice changes nothing more. */
  lemma TransformIdempotentWhenUnnested(n: Node)
    requires Unnested(n)
    ensures Transform(Transform(n)) == Transform(n)
  {
    TransformReachesCanonical(n);
    CanonicalIsFixpoint(Transform(n));
  }

  // ---------------------------------------------------------------------
  // The four rules, as the pass applies them

  /**
   * CAST(STR_TO_TIME(x, f) AS T) becomes CAST(x AS T) whatever T is, and the
   * pass goes on into x; the STR_TO_TIME call itself is never examined.
   */
  lemma CastOverStrToTime(c: seq<string>, fc: seq<string>, name: string, x: Node, args: seq<Node>, t: string)
    requires NamedAs(name, StrToTime)
    ensures Transform(Cast(c, Func(fc, name, x, args), DataType([], t))) == Cast(c, Transform(x), DataType([], t))
  {
    var n := Cast(c, Func(fc, name, x, args), DataType([], t));
    assert TransformNode(n) == Kept(Cast(c, x, DataType([], t)));
    assert TransformNode(DataType([], t)) == Kept(DataType([], t));
    assert Transform(DataType([], t)) == DataType([], t);
    assert Transform(n) == TransformChildren(Cast(c, x, DataType([], t)));
  }

  /** TO_DATE(x, ...) becomes a fresh CAST(x AS DATE); x is left as it is. */
  lemma ToDateLowered(c: seq<string>, name: string, x: Node, args: seq<Node>)
    requires NamedAs(name, ToDate)
    ensures Transform(Func(c, name, x, args)) == Cast([], x, DataType([], "DATE"))
  {
  }

  /** A STR_TO_TIME(x, ...) that is not the operand of a cast becomes x, left as it is. */
  lemma StrToTimeUnwrapped(c: seq<string>, name: string, x: Node, args: seq<Node>)
    requires NamedAs(name, StrToTime)
    ensures Transform(Func(c, name, x, args)) == x
  {
  }

  /**
   * A CREATE loses its properties; its kind becomes TABLE when it is
   * temporary and is kept otherwise; the temporary flag stays; the pass goes on
   * into its body.
   */
  lemma CreateStripped(c: seq<string>, kind: string, temp: bool, props: seq<Node>, body: seq<Node>)
    ensures var r := Transform(Create(c, kind, temp, props, body));
      r.Create? && r.properties == [] && r.temporary == temp && r.comments == c
      && (r.kind == TableKind <==> temp || kind == TableKind)
      && (!temp ==> r.kind == kind)
      && r.body == TransformAll(body)
  {
  }

  /**
   * Rule priority: in CAST(STR_TO_TIME(TO_DATE(y, f), g) AS T) the cast rule
   * takes the STR_TO_TIME before the bare-STR_TO_TIME rule could, so the pass
   * reaches the TO_DATE and lowers it too.
   */
  lemma CastRuleComesFirst(y: Node, f: Node, g: Node, t: string)
    requires Canonical(y)
    ensures
      var toDate := Func([], "TO_DATE", y, [f]);
      Transform(Cast([], Func([], "str_to_time", toDate, [g]), DataType([], t)))
        == Cast([], Cast([], y, DataType([], "DATE")), DataType([], t))
  {
    var toDate := Func([], "TO_DATE", y, [f]);
    assert NamedAs("str_to_time", StrToTime);
    assert NamedAs("TO_DATE", ToDate);
    CastOverStrToTime([], [], "str_to_time", toDate, [g], t);
    assert Transform(toDate) == Cast([], y, DateType);
  }

  /**
   * The pass is not a fixpoint: in TO_DATE(STR_TO_TIME(x, f), g) the fresh
   * cast hides the STR_TO_TIME from the pass, and a second pass changes the
   * result again.
   */
  lemma NotIdempotent()
    ensures
      var n := Func([], "TO_DATE", Func([], "STR_TO_TIME", Literal([], "2020-01-01", true), [Literal([], "%Y-%m-%d", true)]),
                    [Literal([], "YYYY-MM-DD", true)]);
      Transform(Transform(n)) != Transform(n)
  {
    var x := Literal([], "2020-01-01", true);
    var inner := Func([], "STR_TO_TIME", x, [Literal([], "%Y-%m-%d", true)]);
    var n := Func([], "TO_DATE", inner, [Literal([], "YYYY-MM-DD", true)]);
    assert NamedAs("TO_DATE", ToDate);
    assert NamedAs("STR_TO_TIME", StrToTime);
    assert Transform(n) == Cast([], inner, DateType);
    CastOverStrToTime([], [], "STR_TO_TIME", x, [Literal([], "%Y-%m-%d", true)], "DATE");
    assert Transform(Transform(n)) == Cast([], x, DateType);
  }

  // ---------------------------------------------------------------------
  // What the pass keeps

  /** The pass never alters or invents a table reference: it can only drop some. */
  lemma {:induction false} TransformKeepsTables(n: Node)
    ensures multiset(TableMapping.TableRefs(Transform(n))) <= multiset(TableMapping.TableRefs(n))
    decreases Size(n), 1
  {
    if n.Cast? && n.expr.Func? && NamedAs(n.expr.name, StrToTime) {
      assert Size(n.expr.expr) < Size(n);
      TransformKeepsTables(n.expr.expr);
      TransformKeepsTables(n.to);
    } else if DateCall(n) {
    } else {
      match n
      case Cast(_, x, to) =>
        TransformKeepsTables(x);
        TransformKeepsTables(to);
      case Func(_, _, x, args) =>
        TransformKeepsTables(x);
        TransformAllKeepsTables(args);
      case Create(_, _, _, _, body) =>
        TransformAllKeepsTables(body);
      case Other(_, _, children) =>
        TransformAllKeepsTables(children);
      case _ =>
    }
  }

  lemma {:induction false} TransformAllKeepsTables(s: seq<Node>)
    ensures multiset(TableMapping.TableRefsAll(TransformAll(s))) <= multiset(TableMapping.TableRefsAll(s))
    decreases SizeAll(s), 2
  {
    if s != [] {
      var r := TransformAll(s);
      assert r[0] == Transform(s[0]) && r[1..] == TransformAll(s[1..]);
      assert TableMapping.TableRefsAll(r) == TableMapping.TableRefs(r[0]) + TableMapping.TableRefsAll(r[1..]);
      TransformKeepsTables(s[0]);
      TransformAllKeepsTables(s[1..]);
    }
  }

  /** The pass adds no comment: the nodes it creates have none. */
  lemma {:induction false} TransformKeepsUncommented(n: Node)
    requires Comments.Uncommented(n)
    ensures Comments.Uncommented(Transform(n))
    decreases Size(n), 1
  {
    if n.Cast? && n.expr.Func? && NamedAs(n.expr.name, StrToTime) {
      assert Size(n.expr.expr) < Size(n);
      TransformKeepsUncommented(n.expr.expr);
      TransformKeepsUncommented(n.to);
    } else if DateCall(n) {
    } else {
      match n
      case Cast(_, x, to) =>
        TransformKeepsUncommented(x);
        TransformKeepsUncommented(to);
      case Func(_, _, x, args) =>
        TransformKeepsUncommented(x);
        TransformAllKeepsUncommented(args);
      case Create(_, _, _, _, body) =>
        TransformAllKeepsUncommented(body);
      case Other(_, _, children) =>
        TransformAllKeepsUncommented(children);
      case _ =>
    }
  }

  lemma {:induction false} TransformAllKeepsUncommented(s: seq<Node>)
    requires Comments.AllUncommented(s)
    ensures Comments.AllUncommented(TransformAll(s))
    decreases SizeAll(s), 2
  {
    forall i | 0 <= i < |s| ensures Comments.Uncommented(TransformAll(s)[i]) {
      SizeAllElement(s, i);
      TransformAllAt(s, i);
      TransformKeepsUncommented(s[i]);
    }
  }
}
