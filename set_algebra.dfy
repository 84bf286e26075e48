/**
 * The wrapped set algebra. Each inherited set method is replaced by one
 * uniform adapter: coerce every operand to an attribute set, run the
 * builtin method, coerce the result back. Modelled on contents.
 */
module SetAlgebra {
  import opened AttributeSets

  /** The seventeen wrapped method names. */
  datatype SetMethod =
    | Sub | ISub | RSub
    | Xor | IXor | RXor
    | And | IAnd | RAnd
    | Or | IOr | ROr
    | Copy | Difference | Intersection | SymmetricDifference | Union

  /** How many operands besides `self` each method takes. */
  predicate Arity(m: SetMethod, n: nat)
  {
    match m
    case Copy => n == 0
    case Difference | Intersection | Union => true
    case _ => n == 1
  }

  function DifferenceAll(s: set<string>, others: seq<set<string>>): set<string>
    decreases |others|
  {
    if others == [] then s else DifferenceAll(s - others[0], others[1..])
  }

  function IntersectionAll(s: set<string>, others: seq<set<string>>): set<string>
    decreases |others|
  {
    if others == [] then s else IntersectionAll(s * others[0], others[1..])
  }

  function UnionAll(s: set<string>, others: seq<set<string>>): set<string>
    decreases |others|
  {
    if others == [] then s else UnionAll(s + others[0], others[1..])
  }

  /** The builtin method on plain contents; reflected forms swap the operands. */
  function Builtin(m: SetMethod, self: set<string>, args: seq<set<string>>): (r: set<string>)
    requires Arity(m, |args|)
    ensures forall x :: x in r ==> x in self || exists i :: 0 <= i < |args| && x in args[i]
  {
    match m
    case Sub | ISub => self - args[0]
    case RSub => args[0] - self
    case Xor | IXor | RXor => (self - args[0]) + (args[0] - self)
    case And | IAnd | RAnd => self * args[0]
    case Or | IOr | ROr => self + args[0]
    case Copy => self
    case Difference =>
      assert forall x :: x in DifferenceAll(self, args) ==> x in self by {
        forall x | x in DifferenceAll(self, args) ensures x in self {
          DifferenceAllMembers(self, args, x);
        }
      }
      DifferenceAll(self, args)
    case Intersection =>
      assert forall x :: x in IntersectionAll(self, args) ==> x in self by {
        forall x | x in IntersectionAll(self, args) ensures x in self {
          IntersectionAllMembers(self, args, x);
        }
      }
      IntersectionAll(self, args)
    case SymmetricDifference => (self - args[0]) + (args[0] - self)
    case Union =>
      assert forall x :: x in UnionAll(self, args) ==> x in self || exists i :: 0 <= i < |args| && x in args[i] by {
        forall x | x in UnionAll(self, args) ensures x in self || exists i :: 0 <= i < |args| && x in args[i] {
          UnionAllMembers(self, args, x);
        }
      }
      UnionAll(self, args)
  }

  function CoerceAll(args: seq<set<string>>): (r: seq<set<string>>)
    ensures |r| == |args|
    ensures forall i :: 0 <= i < |args| ==> r[i] == Coerce(args[i])
  {
    seq(|args|, i requires 0 <= i < |args| => Coerce(args[i]))
  }

  /**
   * The adapter `_wrapper(func, set)` applied to method `m`: the contents are
   * those of the builtin method, and the result is an attribute set (coercing
   * it again changes nothing).
   */
  function Wrapped(m: SetMethod, self: set<string>, args: seq<set<string>>): (r: set<string>)
    requires Arity(m, |args|)
    ensures r == Builtin(m, self, args)
    ensures Coerce(r) == r
  {
    var coerced := CoerceAll(args);
    assert coerced == args by {
      assert forall i :: 0 <= i < |args| ==> coerced[i] == args[i];
    }
    Coerce(Builtin(m, self, coerced))
  }

  /** Membership in the result of each method, stated element-wise. */
  predicate InResult(m: SetMethod, self: set<string>, args: seq<set<string>>, x: string)
    requires Arity(m, |args|)
  {
    match m
    case Sub | ISub => x in self && x !in args[0]
    case RSub => x in args[0] && x !in self
    case Xor | IXor | RXor | SymmetricDifference => (x in self) != (x in args[0])
    case And | IAnd | RAnd => x in self && x in args[0]
    case Or | IOr | ROr => x in self || x in args[0]
    case Copy => x in self
    case Difference => x in self && forall i :: 0 <= i < |args| ==> x !in args[i]
    case Intersection => x in self && forall i :: 0 <= i < |args| ==> x in args[i]
    case Union => x in self || exists i :: 0 <= i < |args| && x in args[i]
  }

  lemma {:induction false} DifferenceAllMembers(s: set<string>, others: seq<set<string>>, x: string)
    ensures x in DifferenceAll(s, others) <==> x in s && forall i :: 0 <= i < |others| ==> x !in others[i]
    decreases |others|
  {
    if others != [] {
      DifferenceAllMembers(s - others[0], others[1..], x);
      assert forall i :: 1 <= i < |others| ==> others[i] == others[1..][i - 1];
    }
  }

  lemma {:induction false} IntersectionAllMembers(s: set<string>, others: seq<set<string>>, x: string)
    ensures x in IntersectionAll(s, others) <==> x in s && forall i :: 0 <= i < |others| ==> x in others[i]
    decreases |others|
  {
    if others != [] {
      IntersectionAllMembers(s * others[0], others[1..], x);
      assert forall i :: 1 <= i < |others| ==> others[i] == others[1..][i - 1];
    }
  }

  lemma {:induction false} UnionAllMembers(s: set<string>, others: seq<set<string>>, x: string)
    ensures x in UnionAll(s, others) <==> x in s || exists i :: 0 <= i < |others| && x in others[i]
    decreases |others|
  {
    if others != [] {
      UnionAllMembers(s + others[0], others[1..], x);
      assert forall i :: 1 <= i < |others| ==> others[i] == others[1..][i - 1];
      if exists i :: 1 <= i < |others| && x in others[i] {
        var i :| 1 <= i < |others| && x in others[i];
        assert x in others[1..][i - 1];
      }
    }
  }

  /** Membership in the result of a wrapped method, element by element. */
  lemma WrappedMembers(m: SetMethod, self: set<string>, args: seq<set<string>>, x: string)
    requires Arity(m, |args|)
    ensures x in Wrapped(m, self, args) <==> InResult(m, self, args, x)
  {
    match m {
      case Difference => DifferenceAllMembers(self, args, x);
      case Intersection => IntersectionAllMembers(self, args, x);
      case Union => UnionAllMembers(self, args, x);
      case _ =>
    }
  }
}
