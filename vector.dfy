/**
  The growable vector of lambda.c (`lambda_vector_t`, lines 69-136).  One
  generic class replaces the C union of `chars`, `funcs` and `positions`:
  `elements` slots of `items` are in use, and `items.Length` plays the part of
  the C field `length`, which starts at 32 and doubles whenever a push finds
  the vector full.  Allocation is assumed to succeed.
*/
module Vectors {
  import opened Scan

  /** The capacity a fresh vector starts with (`vec->length = 32`). */
  const InitialLength: nat := 32

  class Vector<T(0)> {
    var items: array<T>
    var elements: nat
    ghost var Repr: set<object>

    /** The object invariant: the used slots fit in the allocated ones. */
    ghost predicate Valid()
      reads this, Repr
    {
      && Repr == {this, items}
      && 0 < items.Length
      && elements <= items.Length
    }

    /** The elements pushed so far, oldest first. */
    ghost function Contents(): seq<T>
      reads this, Repr
      requires Valid()
    {
      items[..elements]
    }

    /** `lambda_vector_init`: no elements and room for 32. */
    constructor Init()
      ensures Valid() && fresh(Repr)
      ensures Contents() == [] && items.Length == InitialLength
    {
      items := new T[InitialLength];
      elements := 0;
      Repr := {this, items};
    }

    /** `lambda_vector_resize`: doubles the capacity when, and only when, every slot is used. */
    method Resize()
      requires Valid()
      modifies Repr
      ensures Valid() && fresh(Repr - old(Repr))
      ensures Contents() == old(Contents())
      ensures items.Length == if old(elements) == old(items.Length) then 2 * old(items.Length) else old(items.Length)
      ensures elements < items.Length
    {
      if elements == items.Length {
        var larger := new T[2 * items.Length];
        var k := 0;
        while k < elements
          invariant 0 <= k <= elements == items.Length < larger.Length
          invariant larger[..k] == items[..k]
          invariant items == old(items) && elements == old(elements) && items[..] == old(items[..])
        {
          larger[k] := items[k];
          k := k + 1;
        }
        items := larger;
        Repr := {this, items};
      }
    }

    /** `lambda_vector_push_char` and `lambda_vector_push_position`: one new element at index `elements`. */
    method Push(x: T)
      requires Valid()
      modifies Repr
      ensures Valid() && fresh(Repr - old(Repr))
      ensures Contents() == old(Contents()) + [x]
      ensures items.Length == if old(elements) == old(items.Length) then 2 * old(items.Length) else old(items.Length)
    {
      Resize();
      items[elements] := x;
      elements := elements + 1;
    }

    /** `parens.elements--`: drops the newest element. */
    method Pop()
      requires Valid() && 0 < elements
      modifies this
      ensures Valid() && Repr == old(Repr) && items == old(items)
      ensures Contents() == old(Contents())[..old(elements) - 1]
    {
      elements := elements - 1;
    }
  }

  /** `lambda_vector_create_lambda`: returns the old count and appends a zeroed record. */
  method CreateLambda(v: Vector<Lambda>) returns (idx: nat)
    requires v.Valid()
    modifies v.Repr
    ensures v.Valid() && fresh(v.Repr - old(v.Repr))
    ensures idx == |old(v.Contents())|
    ensures v.Contents() == old(v.Contents()) + [ZeroLambda]
  {
    idx := v.elements;
    v.Push(ZeroLambda);
  }
}
