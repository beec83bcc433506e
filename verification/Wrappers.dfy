/** Small types and notions shared by the modules of this model. */
module Wrappers {

  datatype Option<+T> = None | Some(value: T)

  /** The answer of a remote service, a library or the disk: it may fail. */
  datatype Reply<+T> = Failed | Answer(value: T)

  type Host = string
  type Tag = string

  function TrimNewlines(s: string): (r: string)
    ensures r == "" || r[|r|-1] != '\n'
    ensures r <= s && forall i :: |r| <= i < |s| ==> s[i] == '\n'
  {
    if s != "" && s[|s|-1] == '\n' then TrimNewlines(s[..|s|-1]) else s
  }

  /** Nothing is listed twice. */
  ghost predicate Distinct<T(!new)>(s: seq<T>) {
    forall i, j :: 0 <= i < j < |s| ==> s[i] != s[j]
  }

  lemma DistinctStep<T(!new)>(s: seq<T>, x: T)
    ensures Distinct(s + [x]) <==> Distinct(s) && x !in s
  {
    var more := s + [x];
    assert more[|s|] == x && forall i :: 0 <= i < |s| ==> more[i] == s[i];
  }

  /** Everything was dealt out between two sets and a rest. */
  ghost predicate Dealt<T(!new)>(all: set<T>, a: set<T>, b: set<T>, rest: set<T>) {
    a + b + rest == all && a !! b !! rest
  }

  lemma DealtStep<T(!new)>(all: set<T>, a: set<T>, b: set<T>, rest: set<T>, x: T)
    requires Dealt(all, a, b, rest) && x in rest
    ensures Dealt(all, a + {x}, b, rest - {x}) && Dealt(all, a, b + {x}, rest - {x})
    ensures |rest - {x}| < |rest|
  {
  }

  /** The members of a set, in some order. */
  method ListOf<T(==,!new)>(all: set<T>) returns (list: seq<T>)
    ensures forall x :: x in list <==> x in all
    ensures Distinct(list)
  {
    list := [];
    assert Distinct(list);
    hide Distinct;
    var rest := all;
    while rest != {}
      invariant rest <= all && forall x :: x in list <==> x in all - rest
      invariant Distinct(list)
      decreases |rest|
    {
      var x :| x in rest;
      DistinctStep(list, x);
      list, rest := list + [x], rest - {x};
    }
  }
}
