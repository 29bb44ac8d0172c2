/** The usage detector (`get_unused_arguments` with its nested `NameFinder`). */
module Usage {
  import opened Syntax
  import opened Parameters

  /** `m` reads the name `x`: it is a Name with that id in a Load or Del context. */
  predicate IsRead(m: Node, x: string) {
    m.Name? && m.id == x && m.ctx != Store
  }

  /** The names read anywhere in `n`, `n` included: its own id when it is a Name that is not
      being assigned, then the names read in its children. */
  function ReadNames(n: Node): (r: set<string>)
    ensures n.Name? ==> r == if n.ctx == Store then {} else {n.id}
    decreases n, 1
  {
    ChildrenSmaller(n);
    (if n.Name? && n.ctx != Store then {n.id} else {}) + ReadNamesIn(Children(n), n)
  }

  /** The names read anywhere in the nodes of `s`. */
  function ReadNamesIn(s: seq<Node>, ghost parent: Node): (r: set<string>)
    requires forall i :: 0 <= i < |s| ==> s[i] < parent
    ensures |s| == 1 ==> r == ReadNames(s[0])
    decreases parent, 0, |s|
  {
    if s == [] then {}
    else
      assert |s| == 1 ==> s[..|s| - 1] == [];
      ReadNamesIn(s[..|s| - 1], parent) + ReadNames(s[|s| - 1])
  }

  /** The declared names that no Name node of the definition reads. */
  function UnusedArguments(fn: Node): (r: set<string>)
    requires IsDef(fn)
    ensures r <= ArgumentNames(fn.args)
  {
    ArgumentNames(fn.args) - ReadNames(fn)
  }

  /** Some Name node within `n` reads `x`. */
  ghost predicate ReadWithin(n: Node, x: string) {
    exists m :: Within(m, n) && IsRead(m, x)
  }

  /** Some Name node within one of the nodes of `s` reads `x`. */
  ghost predicate ReadWithinSome(s: seq<Node>, x: string) {
    exists c, m :: c in s && Within(m, c) && IsRead(m, x)
  }

  /** A name is read in `n` exactly when some Name node within `n` reads it. */
  lemma {:induction false} ReadNamesExactly(n: Node, x: string)
    ensures x in ReadNames(n) <==> exists m :: Within(m, n) && IsRead(m, x)
    decreases n, 1
  {
    ChildrenSmaller(n);
    ReadNamesInExactly(Children(n), n, x);
    ReadHasReader(n, x);
    ReaderIsRead(n, x);
  }

  /** One level of ReadNamesExactly: a name read in `n` has a reader within `n`, given that a name
      read in its children has a reader within one of them. */
  lemma ReadHasReader(n: Node, x: string)
    requires forall i :: 0 <= i < |Children(n)| ==> Children(n)[i] < n
    requires x in ReadNamesIn(Children(n), n) ==> ReadWithinSome(Children(n), x)
    ensures x in ReadNames(n) ==> ReadWithin(n, x)
  {
    if x in ReadNames(n) && !IsRead(n, x) {
      var c, m :| c in Children(n) && Within(m, c) && IsRead(m, x);
      assert Within(m, n);
    }
  }

  /** The converse one level: a reader within `n` makes the name read in `n`. */
  lemma ReaderIsRead(n: Node, x: string)
    requires forall i :: 0 <= i < |Children(n)| ==> Children(n)[i] < n
    requires ReadWithinSome(Children(n), x) ==> x in ReadNamesIn(Children(n), n)
    ensures ReadWithin(n, x) ==> x in ReadNames(n)
  {
    if ReadWithin(n, x) {
      var m :| Within(m, n) && IsRead(m, x);
      if m != n {
        var c :| c in Children(n) && Within(m, c);
        assert ReadWithinSome(Children(n), x);
      }
    }
  }

  /** A name is read in a sequence of nodes exactly when some Name node within one of them reads it. */
  lemma {:induction false} ReadNamesInExactly(s: seq<Node>, parent: Node, x: string)
    requires forall i :: 0 <= i < |s| ==> s[i] < parent
    ensures x in ReadNamesIn(s, parent) <==> ReadWithinSome(s, x)
    decreases parent, 0, |s|
  {
    if s != [] {
      var init, last := s[..|s| - 1], s[|s| - 1];
      assert forall c :: c in s <==> c in init || c == last;
      ReadNamesInExactly(init, parent, x);
      ReadNamesExactly(last, x);
    }
  }

  /** Reading one more node of a sequence adds the names it reads. */
  lemma ReadNamesInStep(s: seq<Node>, parent: Node, i: nat)
    requires i < |s| && forall j :: 0 <= j < |s| ==> s[j] < parent
    ensures ReadNamesIn(s[..i + 1], parent) == ReadNamesIn(s[..i], parent) + ReadNames(s[i])
  {
    assert s[..i + 1][..i] == s[..i];
  }

  /** A declared name survives exactly when no Name node anywhere in the definition reads it:
      not in the body, nested definitions, decorators, defaults or annotations. */
  lemma UnusedExactly(fn: Node, x: string)
    requires IsDef(fn)
    ensures x in UnusedArguments(fn)
            <==> x in ArgumentNames(fn.args) && !exists m :: Within(m, fn) && IsRead(m, x)
  {
    ReadNamesExactly(fn, x);
  }

  /** Assignment targets do not count as uses: a declared name that only ever appears in Store
      context is reported unused. */
  lemma StoreKeepsName(fn: Node, x: string)
    requires IsDef(fn) && x in ArgumentNames(fn.args)
    requires forall m :: Within(m, fn) && m.Name? && m.id == x ==> m.ctx == Store
    ensures x in UnusedArguments(fn)
  {
    UnusedExactly(fn, x);
  }

  /** A Load or Del reference anywhere within the definition uses the name. */
  lemma LoadOrDelUsesName(fn: Node, m: Node)
    requires IsDef(fn) && Within(m, fn) && m.Name? && m.ctx != Store
    ensures m.id !in UnusedArguments(fn)
  {
    assert IsRead(m, m.id);
    ReadNamesExactly(fn, m.id);
  }

  /** `NameFinder`, with the set of still-unused names it shrinks as its field. */
  class NameFinder {
    var names: set<string>

    constructor(names: set<string>)
      ensures this.names == names
    {
      this.names := names;
    }

    /** `visit`: Names go to `visit_Name`, every other node to `generic_visit`. */
    method Visit(n: Node)
      modifies this
      ensures names == old(names) - ReadNames(n)
      decreases n, 2
    {
      if n.Name? {
        assert ReadNamesIn(Children(n), n) == {};
        VisitName(n);
      } else {
        GenericVisit(n);
      }
    }

    /** `visit_Name`: a Store reference changes nothing; any other removes the name if present. */
    method VisitName(name: Node)
      requires name.Name?
      modifies this
      ensures names == if name.ctx == Store then old(names) else old(names) - {name.id}
    {
      if name.ctx == Store {
        return;
      }
      if name.id in names {
        names := names - {name.id};
      }
    }

    /** `generic_visit`: visit each child in field order. (The first postcondition only restates
        that the children are smaller, which the second needs in order to be well formed.) */
    method GenericVisit(n: Node)
      modifies this
      ensures forall i :: 0 <= i < |Children(n)| ==> Children(n)[i] < n
      ensures names == old(names) - ReadNamesIn(Children(n), n)
      decreases n, 1
    {
      ChildrenSmaller(n);
      VisitAll(Children(n), n);
    }

    /** The loop of `generic_visit`: the children of `n`, one after the other. */
    method VisitAll(children: seq<Node>, ghost n: Node)
      requires forall i :: 0 <= i < |children| ==> children[i] < n
      modifies this
      ensures names == old(names) - ReadNamesIn(children, n)
      decreases n, 0
    {
      var i := 0;
      while i < |children|
        invariant 0 <= i <= |children|
        invariant names == old(names) - ReadNamesIn(children[..i], n)
      {
        ghost var before := names;
        Visit(children[i]);
        assert names == old(names) - ReadNamesIn(children[..i + 1], n) by {
          ReadNamesInStep(children, n, i);
          assert names == before - ReadNames(children[i]);
        }
        i := i + 1;
      }
      assert children[..i] == children;
    }
  }

  /** `get_unused_arguments`: gather the declared names, then let a `NameFinder` walk the whole
      definition node and remove every name it sees read. */
  method GetUnusedArguments(fn: Node) returns (names: set<string>)
    requires IsDef(fn)
    ensures names == UnusedArguments(fn)
    ensures forall x :: x in names
              <==> x in ArgumentNames(fn.args) && !exists m :: Within(m, fn) && IsRead(m, x)
  {
    var declared := GetArgumentNames(fn);
    var finder := new NameFinder(declared);
    finder.Visit(fn);
    names := finder.names;
    forall x ensures x in names <==> x in ArgumentNames(fn.args) && !exists m :: Within(m, fn) && IsRead(m, x) {
      UnusedExactly(fn, x);
    }
  }
}
