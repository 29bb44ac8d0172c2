/** The decorator-token resolver (`get_decorator_names`) and the `any(...)` test that the abstract
    toggle applies to its tokens. */
module Decorators {
  import opened Outcomes
  import opened Syntax

  /** The token of one decorator: a Name gives its id, an Attribute its attribute name, a Call the
      attribute name of its callee. A Call whose callee is not an Attribute (`@d()`) fails reading
      `.attr`; any other shape fails the assertion. */
  function DecoratorToken(d: Node): (r: Result<string>)
    ensures r.Ok? <==> d.Name? || d.Attribute? || (d.Call? && d.func.Attribute?)
    ensures r.Err? ==> r.fault == if d.Call? then CalleeHasNoAttr else UnknownDecoratorShape
  {
    match d
    case Name(id, _) => Ok(id)
    case Attribute(_, attr, _) => Ok(attr)
    case Call(func, _) => if func.Attribute? then Ok(func.attr) else Err(CalleeHasNoAttr)
    case _ => Err(UnknownDecoratorShape)
  }

  /** The generator over a decorator list: one token per decorator, in order, until the first
      decorator it cannot resolve, where it raises. */
  function ResolveAll(ds: seq<Node>): (r: Yielded<string>)
    ensures |r.items| <= |ds|
    ensures forall i :: 0 <= i < |r.items| ==> DecoratorToken(ds[i]) == Ok(r.items[i])
    ensures r.stop.None? <==> |r.items| == |ds|
    ensures r.stop.Some? ==> DecoratorToken(ds[|r.items|]) == Err(r.stop.value)
  {
    if ds == [] then Yielded([], None)
    else match DecoratorToken(ds[0])
      case Err(f) => Yielded([], Some(f))
      case Ok(token) =>
        var rest := ResolveAll(ds[1..]);
        Yielded([token] + rest.items, rest.stop)
  }

  /** `get_decorator_names(function)`: a Lambda has no decorator list, so the first step fails. */
  function DecoratorNames(fn: Node): (r: Yielded<string>)
    requires IsDef(fn)
    ensures fn.Lambda? ==> r == Yielded([], Some(LambdaHasNoDecoratorList))
    ensures !fn.Lambda? ==> |r.items| <= |fn.decoratorList|
                            && forall i :: 0 <= i < |r.items| ==> DecoratorToken(fn.decoratorList[i]) == Ok(r.items[i])
  {
    if fn.Lambda? then Yielded([], Some(LambdaHasNoDecoratorList)) else ResolveAll(fn.decoratorList)
  }

  /** `any(name == "abstractmethod" for name in tokens)`: stops at the first match, so a fault raised
      after a matching token is never reached. */
  function AnyAbstract(tokens: Yielded<string>): (r: Result<bool>)
    ensures r == Ok(true) <==> "abstractmethod" in tokens.items
    ensures r.Err? ==> tokens.stop == Some(r.fault)
    ensures "abstractmethod" !in tokens.items && tokens.stop.Some? ==> r == Err(tokens.stop.value)
  {
    if "abstractmethod" in tokens.items then Ok(true)
    else if tokens.stop.Some? then Err(tokens.stop.value)
    else Ok(false)
  }

  /** Every decorator resolves exactly when the generator yields one token per decorator, in
      order, and finishes without a fault. */
  lemma ResolveAllTotal(ds: seq<Node>)
    requires forall i :: 0 <= i < |ds| ==> DecoratorToken(ds[i]).Ok?
    ensures ResolveAll(ds).stop.None? && |ResolveAll(ds).items| == |ds|
    ensures forall i :: 0 <= i < |ds| ==> ResolveAll(ds).items[i] == DecoratorToken(ds[i]).value
  {
  }

  /** A definition counts as abstract exactly when an `abstractmethod` token is yielded before any
      decorator fails to resolve: some decorator resolves to `abstractmethod` and all before it
      resolve. */
  lemma AbstractExactly(ds: seq<Node>)
    ensures AnyAbstract(ResolveAll(ds)) == Ok(true)
            <==> exists k :: 0 <= k < |ds| && AbstractAt(ds, k)
  {
    var r := ResolveAll(ds);
    if AnyAbstract(r) == Ok(true) {
      var k :| 0 <= k < |r.items| && r.items[k] == "abstractmethod";
      YieldedAbstract(ds, k);
    }
    if exists k :: 0 <= k < |ds| && AbstractAt(ds, k) {
      var k :| 0 <= k < |ds| && AbstractAt(ds, k);
      AbstractYielded(ds, k);
    }
  }

  /** Decorator `k` resolves to `abstractmethod` and every decorator before it resolves. */
  predicate AbstractAt(ds: seq<Node>, k: nat)
    requires k < |ds|
  {
    DecoratorToken(ds[k]) == Ok("abstractmethod") && forall i :: 0 <= i < k ==> DecoratorToken(ds[i]).Ok?
  }

  /** A yielded `abstractmethod` token comes from a decorator all of whose predecessors resolve. */
  lemma YieldedAbstract(ds: seq<Node>, k: nat)
    requires k < |ResolveAll(ds).items| && ResolveAll(ds).items[k] == "abstractmethod"
    ensures k < |ds| && AbstractAt(ds, k)
  {
  }

  /** Conversely, such a decorator's token is yielded. */
  lemma AbstractYielded(ds: seq<Node>, k: nat)
    requires k < |ds| && AbstractAt(ds, k)
    ensures k < |ResolveAll(ds).items| && ResolveAll(ds).items[k] == "abstractmethod"
  {
  }
}
