/** The definition collector (`FunctionFinder`): a visitor that records every function, async
    function and lambda it reaches, and does not look inside what it records. */
module Collector {
  import opened Syntax

  /** The definitions the collector records when it visits `n`, in visiting order: `n` itself when
      it is a definition, otherwise what it records in each child of `n`, child after child. */
  function Collect(n: Node): (r: seq<Node>)
    ensures forall d :: d in r ==> IsDef(d)
    decreases n, 1
  {
    if IsDef(n) then [n] else ChildrenSmaller(n); CollectAll(Children(n), n)
  }

  /** What the collector records in the nodes of `s`, visited left to right. */
  function CollectAll(s: seq<Node>, ghost parent: Node): (r: seq<Node>)
    requires forall i :: 0 <= i < |s| ==> s[i] < parent
    ensures forall d :: d in r ==> IsDef(d)
    decreases parent, 0, |s|
  {
    if s == [] then [] else CollectAll(s[..|s| - 1], parent) + Collect(s[|s| - 1])
  }

  /** `d` can be reached from `n` without passing through a definition other than `d` itself:
      `d` is `n`, or `n` is no definition and `d` is exposed in one of its children. */
  ghost predicate Exposed(d: Node, n: Node)
    decreases n
  {
    d == n || (!IsDef(n) && exists c :: c in Children(n) && Exposed(d, c))
  }

  /** The collector records exactly the definitions that are not nested inside another definition:
      methods in classes are recorded, functions and lambdas inside a function or lambda are not. */
  lemma {:induction false} CollectExactly(n: Node, d: Node)
    ensures d in Collect(n) <==> IsDef(d) && Exposed(d, n)
    decreases n, 1
  {
    if !IsDef(n) {
      ChildrenSmaller(n);
      CollectAllExactly(Children(n), n, d);
    }
  }

  lemma {:induction false} CollectAllExactly(s: seq<Node>, parent: Node, d: Node)
    requires forall i :: 0 <= i < |s| ==> s[i] < parent
    ensures d in CollectAll(s, parent) <==> IsDef(d) && exists c :: c in s && Exposed(d, c)
    decreases parent, 0, |s|
  {
    if s != [] {
      var init, last := s[..|s| - 1], s[|s| - 1];
      assert forall c :: c in s <==> c in init || c == last;
      CollectAllExactly(init, parent, d);
      CollectExactly(last, d);
    }
  }

  /** Visiting one more node of a sequence appends what it records. */
  lemma CollectAllStep(s: seq<Node>, parent: Node, i: nat)
    requires i < |s| && forall j :: 0 <= j < |s| ==> s[j] < parent
    ensures CollectAll(s[..i + 1], parent) == CollectAll(s[..i], parent) + Collect(s[i])
  {
    assert s[..i + 1][..i] == s[..i];
  }

  /** `FunctionFinder`: `functions` is the list the visit methods append to. */
  class FunctionFinder {
    var functions: seq<Node>

    constructor()
      ensures functions == []
    {
      functions := [];
    }

    /** `visit`: a definition is recorded (`visit_FunctionDef`, `visit_AsyncFunctionDef`,
        `visit_Lambda`) and not descended into; any other node is visited generically. */
    method Visit(n: Node)
      modifies this
      ensures functions == old(functions) + Collect(n)
      decreases n, 1
    {
      if IsDef(n) {
        functions := functions + [n];
      } else {
        GenericVisit(n);
      }
    }

    /** `generic_visit`: visit each child in field order. */
    method GenericVisit(n: Node)
      requires !IsDef(n)
      modifies this
      ensures functions == old(functions) + CollectAll(Children(n), n)
      decreases n, 0
    {
      var children := Children(n);
      ChildrenSmaller(n);
      var i := 0;
      while i < |children|
        invariant 0 <= i <= |children|
        invariant functions == old(functions) + CollectAll(children[..i], n)
      {
        ghost var before := functions;
        Visit(children[i]);
        assert functions == old(functions) + CollectAll(children[..i + 1], n) by {
          CollectAllStep(children, n, i);
          assert functions == before + Collect(children[i]);
        }
        i := i + 1;
      }
      assert children[..i] == children;
    }
  }
}
