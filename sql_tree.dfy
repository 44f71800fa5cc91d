/**
 * The syntax tree handed over by the SQL front-end: a closed set of node
 * kinds, every one of which carries its own list of attached comments.
 */
module SqlTree {
  import opened Wrappers

  /** An identifier node: a name part of a table reference, alias or column. */
  datatype Ident = Ident(comments: seq<string>, name: string, quoted: bool)

  datatype Node =
    | Literal(comments: seq<string>, text: string, isString: bool)
    | Column(comments: seq<string>, column: Ident, qualifier: Option<Ident>)
    | DataType(comments: seq<string>, typeName: string)
      /** CAST(expr AS to); `to` is a DataType node in trees the front-end builds. */
    | Cast(comments: seq<string>, expr: Node, to: Node)
      /** A function call; `expr` is its first argument, `args` the rest. */
    | Func(comments: seq<string>, name: string, expr: Node, args: seq<Node>)
      /** A table reference [catalog.][db.]base [alias]; `base.name` is the mapping key. */
    | Table(comments: seq<string>, base: Ident, db: Option<Ident>, catalog: Option<Ident>, alias: Option<Ident>)
      /** CREATE [TEMPORARY] kind ... with its properties and its body (object name, query). */
    | Create(comments: seq<string>, kind: string, temporary: bool, properties: seq<Node>, body: seq<Node>)
      /** Every other node kind, reduced to a tag and its child nodes. */
    | Other(comments: seq<string>, tag: string, children: seq<Node>)

  /** Number of nodes in a tree; the measure of the rewriting passes. */
  function Size(n: Node): (k: nat)
    ensures k >= 1
    decreases n
  {
    match n
    case Cast(_, x, to) => 1 + Size(x) + Size(to)
    case Func(_, _, x, args) => 1 + Size(x) + SizeAll(args)
    case Create(_, _, _, props, body) => 1 + SizeAll(props) + SizeAll(body)
    case Other(_, _, children) => 1 + SizeAll(children)
    case _ => 1
  }

  function SizeAll(s: seq<Node>): (k: nat)
    ensures k >= |s|
    decreases s
  {
    if s == [] then 0 else Size(s[0]) + SizeAll(s[1..])
  }
}
