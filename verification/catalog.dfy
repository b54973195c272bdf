/**
 * The fruit tier catalog: an enumeration of eleven fruits, CHERRY to
 * WATERMELON, each declared with a tuple (id, radius, mass, colour) that
 * the enumeration's initialiser stores into four attributes. Masses are
 * decimal literals in the source; here they are integers in tenths.
 */
module Catalog {

  datatype Option<T> = None | Some(value: T)

  /** An RGB colour as declared: (red, green, blue). */
  type Rgb = (int, int, int)

  /** The declared tuple of a member: (id, radius, mass in tenths, colour). */
  type Declared = (int, int, int, Rgb)

  datatype Fruit =
    | CHERRY | STRAWBERRY | GRAPE | DEKOPON | ORANGE | APPLE
    | PEAR | PEACH | PINEAPPLE | MELON | WATERMELON

  /** The four attributes the initialiser gives each member. */
  datatype Attributes = Attributes(id: int, radius: int, massTenths: int, color: Rgb)

  /** The members in declaration order. */
  const MEMBERS: seq<Fruit> :=
    [CHERRY, STRAWBERRY, GRAPE, DEKOPON, ORANGE, APPLE,
     PEAR, PEACH, PINEAPPLE, MELON, WATERMELON]

  /** The value each member is declared with. */
  function Value(f: Fruit): Declared
  {
    match f
    case CHERRY     => (0, 12, 10, (239, 7, 10))
    case STRAWBERRY => (1, 16, 12, (251, 108, 75))
    case GRAPE      => (2, 24, 14, (166, 108, 252))
    case DEKOPON    => (3, 30, 20, (255, 185, 2))
    case ORANGE     => (4, 36, 25, (254, 140, 32))
    case APPLE      => (5, 44, 30, (244, 22, 22))
    case PEAR       => (6, 48, 32, (255, 249, 103))
    case PEACH      => (7, 56, 35, (254, 203, 197))
    case PINEAPPLE  => (8, 62, 45, (242, 243, 23))
    case MELON      => (9, 70, 50, (162, 239, 30))
    case WATERMELON => (10, 80, 60, (33, 126, 22))
  }

  /** The initialiser: each tuple component becomes one attribute, unchanged. */
  function Init(v: Declared): (a: Attributes)
    ensures (a.id, a.radius, a.massTenths, a.color) == v
  {
    Attributes(v.0, v.1, v.2, v.3)
  }

  function Attrs(f: Fruit): Attributes
  {
    Init(Value(f))
  }

  /** Searches s for the member whose id is the given one. */
  function Find(s: seq<Fruit>, id: int): (r: Option<Fruit>)
    ensures r.Some? ==> r.value in s && Attrs(r.value).id == id
    ensures r.None? ==> forall f :: f in s ==> Attrs(f).id != id
  {
    if s == [] then None
    else if Attrs(s[0]).id == id then Some(s[0])
    else Find(s[1..], id)
  }

  /** Lookup by id: defined exactly on 0..10, and the entry found carries the key. */
  function FromId(id: int): (r: Option<Fruit>)
    ensures r.Some? <==> 0 <= id < |MEMBERS|
    ensures r.Some? ==> Attrs(r.value).id == id && r.value == MEMBERS[id]
  {
    MembersNumberedInOrder();
    assert 0 <= id < |MEMBERS| ==> MEMBERS[id] in MEMBERS;
    Find(MEMBERS, id)
  }

  /**
   * Eleven members, each listed once, numbered 0..10 in declaration order;
   * so the id identifies the member.
   */
  lemma MembersNumberedInOrder()
    ensures |MEMBERS| == 11
    ensures forall f: Fruit :: f in MEMBERS
    ensures forall i :: 0 <= i < |MEMBERS| ==> Attrs(MEMBERS[i]).id == i
    ensures forall i, j :: 0 <= i < j < |MEMBERS| ==> MEMBERS[i] != MEMBERS[j]
  {
    forall f: Fruit
      ensures f in MEMBERS
    {
      assert MEMBERS[Attrs(f).id] == f;
    }
  }

  lemma IdsUnique(f: Fruit, g: Fruit)
    ensures Attrs(f).id == Attrs(g).id <==> f == g
  {
  }

  /** Radius grows strictly with the id, from 12 (CHERRY) to 80 (WATERMELON). */
  lemma RadiusIncreasing(f: Fruit, g: Fruit)
    ensures Attrs(f).id < Attrs(g).id ==> Attrs(f).radius < Attrs(g).radius
    ensures 12 <= Attrs(f).radius <= 80
  {
  }

  /** Mass grows strictly with the id, from 1.0 to 6.0 (10 to 60 tenths). */
  lemma MassIncreasing(f: Fruit, g: Fruit)
    ensures Attrs(f).id < Attrs(g).id ==> Attrs(f).massTenths < Attrs(g).massTenths
    ensures 10 <= Attrs(f).massTenths <= 60
  {
  }

  predicate IsColorComponent(c: int)
  {
    0 <= c <= 255
  }

  /** Every colour is a valid RGB triple. */
  lemma ColorsValid(f: Fruit)
    ensures IsColorComponent(Attrs(f).color.0)
    ensures IsColorComponent(Attrs(f).color.1)
    ensures IsColorComponent(Attrs(f).color.2)
  {
  }
}
