/** The part of Python's abstract syntax tree that the plugin inspects. Nodes the plugin never
    distinguishes (statements, operators, literals other than `...`) are `Other` nodes that keep
    their sub-expressions as children, in the order Python's `ast` module lists its fields. */
module Syntax {
  import opened Outcomes

  /** The context of a Name: read, assigned to, or deleted. */
  datatype Ctx = Load | Store | Del

  /** One declared parameter (`ast.arg`): its name and its optional annotation. */
  datatype Arg = Arg(arg: string, annotation: Option<Node>)

  /** A parameter list (`ast.arguments`). `kwDefaults` has one entry per keyword-only parameter,
      `None` where that parameter has no default. */
  datatype Arguments = Arguments(
    posonlyargs: seq<Arg>,
    args: seq<Arg>,
    vararg: Option<Arg>,
    kwonlyargs: seq<Arg>,
    kwDefaults: seq<Option<Node>>,
    kwarg: Option<Arg>,
    defaults: seq<Node>)

  datatype Node =
    | Module(body: seq<Node>)
    | ClassDef(name: string, bases: seq<Node>, body: seq<Node>, decoratorList: seq<Node>)
    | FunctionDef(name: string, args: Arguments, body: seq<Node>, decoratorList: seq<Node>,
                  returnAnnotation: Option<Node>, lineno: int, colOffset: int)
    | AsyncFunctionDef(name: string, args: Arguments, body: seq<Node>, decoratorList: seq<Node>,
                       returnAnnotation: Option<Node>, lineno: int, colOffset: int)
    | Lambda(args: Arguments, lambdaBody: Node, lineno: int, colOffset: int)
    | Name(id: string, ctx: Ctx)
    | Attribute(value: Node, attr: string, ctx: Ctx)
    | Call(func: Node, callArgs: seq<Node>)   // positional and keyword argument values alike
    | Expr(exprValue: Node)
    | Pass
    | Ellipsis
    | Other(children: seq<Node>)

  /** The node kinds the plugin analyses (`FunctionTypes`). */
  predicate IsDef(n: Node) {
    n.FunctionDef? || n.AsyncFunctionDef? || n.Lambda?
  }

  function OptionalChild(o: Option<Node>): (r: seq<Node>)
    ensures forall c :: c in r ==> o == Some(c)
  {
    if o.Some? then [o.value] else []
  }

  /** The annotations of a list of parameters, in order. */
  function Annotations(ps: seq<Arg>): (r: seq<Node>)
    ensures forall c :: c in r ==> exists p :: p in ps && p.annotation == Some(c)
    ensures forall p :: p in ps && p.annotation.Some? ==> p.annotation.value in r
  {
    if ps == [] then []
    else OptionalChild(ps[0].annotation) + Annotations(ps[1..])
  }

  /** The keyword-only defaults that are present, in order. */
  function PresentDefaults(ds: seq<Option<Node>>): (r: seq<Node>)
    ensures forall c :: c in r ==> Some(c) in ds
    ensures forall d :: d in ds && d.Some? ==> d.value in r
  {
    if ds == [] then []
    else OptionalChild(ds[0]) + PresentDefaults(ds[1..])
  }

  function OptionalAnnotation(p: Option<Arg>): (r: seq<Node>)
    ensures forall c :: c in r ==> p.Some? && p.value.annotation == Some(c)
  {
    if p.Some? then OptionalChild(p.value.annotation) else []
  }

  /** The sub-trees of a parameter list, in `ast.arguments` field order. */
  function ArgumentsChildren(a: Arguments): seq<Node> {
    Annotations(a.posonlyargs) + Annotations(a.args) + OptionalAnnotation(a.vararg)
    + Annotations(a.kwonlyargs) + PresentDefaults(a.kwDefaults) + OptionalAnnotation(a.kwarg)
    + a.defaults
  }

  /** The sub-trees `ast.NodeVisitor.generic_visit` visits, in the order it visits them. Every
      child is structurally smaller than its parent, which is what makes the visitors terminate. */
  function Children(n: Node): (r: seq<Node>)
    ensures forall c :: c in r ==> c < n
  {
    match n
    case Module(body) => body
    case ClassDef(_, bases, body, decorators) => bases + body + decorators
    case FunctionDef(_, args, body, decorators, ret, _, _) =>
      ArgumentsChildren(args) + body + decorators + OptionalChild(ret)
    case AsyncFunctionDef(_, args, body, decorators, ret, _, _) =>
      ArgumentsChildren(args) + body + decorators + OptionalChild(ret)
    case Lambda(args, body, _, _) => ArgumentsChildren(args) + [body]
    case Name(_, _) => []
    case Attribute(value, _, _) => [value]
    case Call(func, callArgs) => [func] + callArgs
    case Expr(value) => [value]
    case Pass => []
    case Ellipsis => []
    case Other(children) => children
  }

  /** The same fact indexed by position, the form the recursions over children ask for. */
  lemma ChildrenSmaller(n: Node)
    ensures forall i :: 0 <= i < |Children(n)| ==> Children(n)[i] < n
  {
    var cs := Children(n);
    forall i | 0 <= i < |cs| ensures cs[i] < n {
      assert cs[i] in cs;
    }
  }

  /** `m` is `n` or occurs somewhere below it. */
  ghost predicate Within(m: Node, n: Node)
    decreases n
  {
    m == n || exists c :: c in Children(n) && Within(m, c)
  }
}
