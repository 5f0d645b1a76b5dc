/** Four 64-bit quantities in one 256-bit storage word. */
module PackedWord {

  const LIMB: int := 0x1_0000_0000_0000_0000

  /** The low field of the word shifted right by `k` fields. */
  function Field(w: nat, k: nat): (v: nat)
    requires k < 4
    ensures v < LIMB
    decreases k
  {
    if k == 0 then w % LIMB else Field(w / LIMB, k - 1)
  }

  function Pack(a: nat, b: nat, c: nat, d: nat): nat
  {
    a + LIMB * (b + LIMB * (c + LIMB * d))
  }

  /** One field replaced, the other three masked through. */
  function Put(w: nat, k: nat, v: nat): nat
    requires k < 4
  {
    Pack(if k == 0 then v else Field(w, 0), if k == 1 then v else Field(w, 1),
         if k == 2 then v else Field(w, 2), if k == 3 then v else Field(w, 3))
  }

  lemma Peel(a: nat, x: nat)
    requires a < LIMB
    ensures (a + LIMB * x) % LIMB == a && (a + LIMB * x) / LIMB == x
  {
  }

  lemma FieldsOfPack(a: nat, b: nat, c: nat, d: nat)
    requires a < LIMB && b < LIMB && c < LIMB && d < LIMB
    ensures var w := Pack(a, b, c, d);
      Field(w, 0) == a && Field(w, 1) == b && Field(w, 2) == c && Field(w, 3) == d && w < LIMB * LIMB * LIMB * LIMB
  {
    var w := Pack(a, b, c, d);
    Peel(a, b + LIMB * (c + LIMB * d));
    Peel(b, c + LIMB * d);
    Peel(c, d);
    var w1, w2 := b + LIMB * (c + LIMB * d), c + LIMB * d;
    assert Field(w, 1) == Field(w1, 0);
    assert Field(w, 2) == Field(w1, 1) == Field(w2, 0);
    assert Field(w, 3) == Field(w1, 2) == Field(w2, 1) == Field(d, 0);
  }

  /** Writing a field is read back, disturbs no other field, and stays a word. */
  lemma FieldOfPut(w: nat, k: nat, v: nat, j: nat)
    requires k < 4 && j < 4 && v < LIMB
    ensures Field(Put(w, k, v), j) == if j == k then v else Field(w, j)
  {
    FieldsOfPack(if k == 0 then v else Field(w, 0), if k == 1 then v else Field(w, 1),
                 if k == 2 then v else Field(w, 2), if k == 3 then v else Field(w, 3));
  }
}
