/** The shifts and masks on bytes that base64 uses, as arithmetic on their values. */
module ByteBits {
  lemma High(x: bv8)
    ensures (x >> 2) as int == x as int / 4
    ensures (x >> 4) as int == x as int / 16 && x >> 4 <= 15
    ensures (x >> 6) as int == x as int / 64 && x >> 6 <= 3
  {
  }

  lemma Low6(x: bv8)
    ensures (x & 0x3f) as int == x as int % 64
  {
  }

  lemma Low2Up(x: bv8)
    ensures ((x & 0x03) << 4) as int == (x as int % 4) * 16 && (x & 0x03) << 4 <= 48
  {
  }

  lemma Low4Up(x: bv8)
    ensures ((x & 0x0f) << 2) as int == (x as int % 16) * 4 && (x & 0x0f) << 2 <= 60
  {
  }

  /** The two halves share no bit, so joining them is adding them. */
  lemma HalvesAdd(x: bv8, y: bv8)
    ensures ((x & 0x03) << 4) | (y >> 4) == ((x & 0x03) << 4) + (y >> 4)
    ensures ((x & 0x0f) << 2) | (y >> 6) == ((x & 0x0f) << 2) + (y >> 6)
  {
  }

  lemma SmallSum(u: bv8, w: bv8)
    requires u <= 60 && w <= 15
    ensures (u + w) as int == u as int + w as int
  {
  }

  lemma JoinLow2High4(x: bv8, y: bv8)
    ensures (((x & 0x03) << 4) | (y >> 4)) as int == (x as int % 4) * 16 + y as int / 16
  {
    Low2Up(x);
    High(y);
    HalvesAdd(x, y);
    SmallSum((x & 0x03) << 4, y >> 4);
  }

  lemma JoinLow4High2(x: bv8, y: bv8)
    ensures (((x & 0x0f) << 2) | (y >> 6)) as int == (x as int % 16) * 4 + y as int / 64
  {
    Low4Up(x);
    High(y);
    HalvesAdd(x, y);
    SmallSum((x & 0x0f) << 2, y >> 6);
  }
}
