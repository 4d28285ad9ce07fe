/**
 The banner formatter of textmod/make-title.py: a body of text centred between
 two runs of a decoration string ("garment"), separated from them by a margin
 of spaces.

   Foo  -->  ####...####     Foo     ####...####
 */
module MakeTitle {
  import opened PyStr

  /** The margin `make_title` uses when its caller does not give one. */
  const DefaultMargin := 2

  /** Python's `n // 2`: the floor of the half, also for negative `n`. */
  function FloorHalf(n: int): (q: int)
    ensures 2 * q <= n < 2 * q + 2
  {
    n / 2
  }

  /** How many copies of the garment go on each side (may be zero or negative,
      in which case none are placed). */
  function GarmentCount(body: string, width: int, margin: int): (count: int)
  {
    FloorHalf(width - |body| - 2 * margin)
  }

  /** A run of space characters (`' '` only). */
  predicate Blanks(t: string) {
    forall k :: 0 <= k < |t| ==> t[k] == ' '
  }

  function Max0(n: int): nat {
    if n < 0 then 0 else n
  }

  /** `make_title(body, garment, width, margin)`. */
  function MakeTitle(body: string, garment: string, width: int, margin: int): (r: string)
  {
    var b := Strip(body);
    var side := Repeat(garment, GarmentCount(b, width, margin));
    var padding := Repeat(" ", margin);
    side + padding + b + padding + side
  }

  // ---------------------------------------------------------------------------
  // Properties
  // ---------------------------------------------------------------------------

  /** The shape of a title: the same run of garment (`count` copies of it) on
      both ends, a margin of spaces inside each, and the stripped body at
      offset `|side| + margin`. */
  lemma Shape(body: string, garment: string, width: int, margin: int)
    ensures var r := MakeTitle(body, garment, width, margin);
            var b := Strip(body);
            var side := Repeat(garment, GarmentCount(b, width, margin));
            var s := |side|;
            var m := Max0(margin);
            && |r| == 2 * s + 2 * m + |b|
            && r[..s] == side && r[|r| - s..] == side
            && Blanks(r[s..s + m])
            && Blanks(r[s + m + |b|..|r| - s])
            && r[s + m..s + m + |b|] == b
  {
    var b := Strip(body);
    var side := Repeat(garment, GarmentCount(b, width, margin));
    var padding := Repeat(" ", margin);
    assert Blanks(padding) by {
      forall i | 0 <= i < |padding| ensures padding[i] == ' ' {
        SpacePadding(margin, i);
      }
    }
    Mirrored(side, padding, b);
  }

  /** Slicing `x + y + z + y + x` back into its pieces. */
  lemma Mirrored(x: string, y: string, z: string)
    ensures var r := x + y + z + y + x;
            && |r| == 2 * |x| + 2 * |y| + |z|
            && r[..|x|] == x && r[|r| - |x|..] == x
            && r[|x|..|x| + |y|] == y
            && r[|x| + |y|..|x| + |y| + |z|] == z
            && r[|x| + |y| + |z|..|r| - |x|] == y
  {
  }

  /** Every character of a run of spaces is a space. */
  lemma {:induction false} SpacePadding(n: int, i: int)
    requires 0 <= i < |Repeat(" ", n)|
    ensures Repeat(" ", n)[i] == ' '
    decreases i
  {
    if i > 0 {
      SpacePadding(n, i - 1);
    }
  }

  /** Output length: both garment runs, the body and both margins. */
  lemma Length(body: string, garment: string, width: int, margin: int)
    ensures |MakeTitle(body, garment, width, margin)|
            == 2 * (|garment| * Max0(GarmentCount(Strip(body), width, margin)))
               + |Strip(body)| + 2 * Max0(margin)
  {
    Shape(body, garment, width, margin);
    var count := GarmentCount(Strip(body), width, margin);
    assert |Repeat(garment, count)| == |garment| * Max0(count);
  }

  /** Leading and trailing whitespace in the input never affects the title. */
  lemma StripInvariant(body: string, garment: string, width: int, margin: int)
    ensures MakeTitle(body, garment, width, margin)
            == MakeTitle(Strip(body), garment, width, margin)
  {
    StripIdempotent(body);
  }

  /** Any whitespace padding around the body is ignored. */
  lemma PaddingInvariant(a: string, body: string, z: string, garment: string,
                         width: int, margin: int)
    requires AllSpace(a) && AllSpace(z)
    ensures MakeTitle(a + body + z, garment, width, margin)
            == MakeTitle(body, garment, width, margin)
  {
    StripIgnoresPadding(a, body, z);
  }

  /** When the width cannot hold one copy of the garment on each side, the
      title is the padded body alone. */
  lemma NarrowWidth(body: string, garment: string, width: int, margin: int)
    requires width < |Strip(body)| + 2 * margin + 2
    ensures MakeTitle(body, garment, width, margin)
            == Repeat(" ", margin) + Strip(body) + Repeat(" ", margin)
  {
    var b := Strip(body);
    assert GarmentCount(b, width, margin) <= 0;
    assert Repeat(garment, GarmentCount(b, width, margin)) == [];
  }

  /** With a one-character garment and room for the body and its margins, the
      title fills the width exactly, or falls one short when the leftover is
      odd; it never overflows. */
  lemma SingleCharFillsWidth(body: string, garment: string, width: int, margin: int)
    requires |garment| == 1 && margin >= 0
    requires width >= |Strip(body)| + 2 * margin
    ensures var n := |MakeTitle(body, garment, width, margin)|;
            n <= width && n >= width - 1
            && (n == width <==> (width - |Strip(body)|) % 2 == 0)
  {
    Length(body, garment, width, margin);
  }

  /** The formatter as run from the command line: default margin, `#` by
      default, 80 columns by default; the banner for "Foo" has 36 garments on
      each side. */
  lemma DefaultBanner()
    ensures var r := MakeTitle("Foo\n", "#", 80, DefaultMargin);
            |r| == 79 && r[..36] == Repeat("#", 36) && Blanks(r[36..38])
            && r[38..41] == "Foo"
  {
    assert Strip("Foo\n") == "Foo" by {
      assert "" + "Foo" + "\n" == "Foo\n";
      StripIgnoresPadding("", "Foo", "\n");
      StripOfTrimmed("Foo");
    }
    assert GarmentCount("Foo", 80, DefaultMargin) == 36;
    assert |Repeat("#", 36)| == 36;
    Shape("Foo\n", "#", 80, DefaultMargin);
  }
}
