/** The search-space size that `Tuner.summary` computes: the product of the
    `space_size` of every hyperparameter, overall and per group. */
module SearchSpace {

  /** One entry of the hyperparameter configuration. */
  datatype HyperParameter = HyperParameter(name: string, group: string, spaceSize: int)

  /** The product of the sizes of all the given hyperparameters. */
  function Product(ps: seq<HyperParameter>): int
    decreases |ps|
  {
    if ps == [] then 1 else Product(ps[..|ps| - 1]) * ps[|ps| - 1].spaceSize
  }

  /** The product of the sizes of the hyperparameters in group `g`. */
  function GroupProduct(ps: seq<HyperParameter>, g: string): int
    decreases |ps|
  {
    if ps == [] then 1
    else
      var last := ps[|ps| - 1];
      GroupProduct(ps[..|ps| - 1], g) * (if last.group == g then last.spaceSize else 1)
  }

  /** The product of the sizes of the hyperparameters outside group `g`. */
  function OtherProduct(ps: seq<HyperParameter>, g: string): int
    decreases |ps|
  {
    if ps == [] then 1
    else
      var last := ps[|ps| - 1];
      OtherProduct(ps[..|ps| - 1], g) * (if last.group == g then 1 else last.spaceSize)
  }

  /** The groups the hyperparameters belong to. */
  function Groups(ps: seq<HyperParameter>): set<string> {
    set i | 0 <= i < |ps| :: ps[i].group
  }

  lemma GroupsSnoc(ps: seq<HyperParameter>, i: nat)
    requires i < |ps|
    ensures Groups(ps[..i + 1]) == Groups(ps[..i]) + {ps[i].group}
  {
  }

  /** The loop of `summary`: `total_size` and the `group_size` dictionary, whose
      groups start at 1 when first seen. */
  method SearchSpaceSize(ps: seq<HyperParameter>) returns (totalSize: int, groupSize: map<string, int>)
    ensures totalSize == Product(ps)
    ensures groupSize.Keys == Groups(ps)
    ensures forall g :: g in groupSize ==> groupSize[g] == GroupProduct(ps, g)
  {
    totalSize := 1;
    groupSize := map[];
    for i := 0 to |ps|
      invariant totalSize == Product(ps[..i])
      invariant groupSize.Keys == Groups(ps[..i])
      invariant forall g :: g in groupSize ==> groupSize[g] == GroupProduct(ps[..i], g)
    {
      var data := ps[i];
      var a := ps[..i + 1];
      assert a[..i] == ps[..i] && a[i] == data;
      GroupsSnoc(ps, i);
      if data.group !in groupSize {
        GroupProductAbsent(ps[..i], data.group);
      }
      var current := if data.group in groupSize then groupSize[data.group] else 1;
      groupSize := groupSize[data.group := current * data.spaceSize];
      totalSize := totalSize * data.spaceSize;
    }
    assert ps[..|ps|] == ps;
  }

  /** A group with no hyperparameter contributes a factor of 1. */
  lemma {:induction false} GroupProductAbsent(ps: seq<HyperParameter>, g: string)
    requires g !in Groups(ps)
    ensures GroupProduct(ps, g) == 1
    decreases |ps|
  {
    if ps != [] {
      var init := ps[..|ps| - 1];
      assert g != ps[|ps| - 1].group;
      GroupsSnoc(ps, |ps| - 1);
      assert ps[..|ps|] == ps;
      GroupProductAbsent(init, g);
    }
  }

  /** The total size splits into the size of any one group times the size of the
      rest. */
  lemma {:induction false} ProductSplitsByGroup(ps: seq<HyperParameter>, g: string)
    ensures Product(ps) == GroupProduct(ps, g) * OtherProduct(ps, g)
    decreases |ps|
  {
    if ps != [] {
      var init := ps[..|ps| - 1];
      var last := ps[|ps| - 1];
      ProductSplitsByGroup(init, g);
      var x, y := GroupProduct(init, g), OtherProduct(init, g);
      if last.group == g {
        calc {
          Product(ps);
          (x * y) * last.spaceSize;
          { MulRearrange(x, y, last.spaceSize); }
          (x * last.spaceSize) * y;
          GroupProduct(ps, g) * OtherProduct(ps, g);
        }
      } else {
        calc {
          Product(ps);
          (x * y) * last.spaceSize;
          { MulAssoc(x, y, last.spaceSize); }
          x * (y * last.spaceSize);
          GroupProduct(ps, g) * OtherProduct(ps, g);
        }
      }
    }
  }

  lemma MulRearrange(x: int, y: int, z: int)
    ensures (x * y) * z == (x * z) * y
  {
  }

  lemma MulAssoc(x: int, y: int, z: int)
    ensures (x * y) * z == x * (y * z)
  {
  }

  /** The order of the hyperparameters does not matter beyond concatenation: the size
      of two lists together is the product of their sizes. */
  lemma {:induction false} ProductAppend(a: seq<HyperParameter>, b: seq<HyperParameter>)
    ensures Product(a + b) == Product(a) * Product(b)
    decreases |b|
  {
    if b == [] {
      assert a + b == a;
    } else {
      var b' := b[..|b| - 1];
      assert (a + b)[..|a + b| - 1] == a + b';
      assert (a + b)[|a + b| - 1] == b[|b| - 1];
      ProductAppend(a, b');
      MulAssoc(Product(a), Product(b'), b[|b| - 1].spaceSize);
    }
  }
}
