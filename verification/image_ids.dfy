/**
 * Image numbering. A post's or a cat's k-th image gets the id whose text is the
 * owner's id followed by k written with at least two digits
 * (`${id}${String(k).padStart(2, '0')}`). Post image ids stay text; cat image ids
 * are read back with `parseInt(…, 10)`. When a cat's images are updated,
 * `currentImageIndex` reads the last two digits of the cat's largest image id and
 * numbering continues from there.
 */
module ImageIds {
  import opened Wrappers
  import opened JsText

  /** `String(k).padStart(2, '0')`. */
  function Slot(k: nat): string {
    PadStart(NatToString(k), 2, '0')
  }

  /** The text `${owner}${String(k).padStart(2, '0')}`. */
  function ImageIdText(owner: nat, k: nat): (t: string)
    ensures AllDigits(t) && t != []
    ensures StartsWith(t, NatToString(owner))
    ensures k < 100 ==> |t| == |NatToString(owner)| + 2
  {
    var o := NatToString(owner);
    var slot := Slot(k);
    SlotShape(k);
    AllDigitsConcat(o, slot);
    assert (o + slot)[..|o|] == o;
    o + slot
  }

  /** The number of decimal digits of `n`. */
  function DigitCount(n: nat): (c: nat)
    ensures c >= 1
  {
    if n < 10 then 1 else 1 + DigitCount(n / 10)
  }

  /** The width of `pad2(k)`: two places, or as many as k has digits. */
  function SlotWidth(k: nat): nat {
    if k < 10 then 2 else DigitCount(k)
  }

  /** A cat image id: the number whose decimal text is `ImageIdText(catId, k)`,
      that is, catId shifted left by the slot's width, plus k. Up to 99 it takes
      the last two decimal places; from 100 to 999, the last three. */
  function CatImageId(catId: nat, k: nat): (id: nat)
    ensures k < 100 ==> id == catId * 100 + k
    ensures 100 <= k < 1000 ==> id == catId * 1000 + k
  {
    SmallWidths(k);
    catId * Pow10(SlotWidth(k)) + k
  }

  lemma SmallWidths(k: nat)
    ensures k < 100 ==> Pow10(SlotWidth(k)) == 100
    ensures 100 <= k < 1000 ==> Pow10(SlotWidth(k)) == 1000
  {
    if 10 <= k < 1000 {
      assert DigitCount(k) == 1 + DigitCount(k / 10);
      if k >= 100 {
        assert DigitCount(k / 10) == 1 + DigitCount(k / 100);
      }
    }
    assert Pow10(2) == 100 by {
      assert Pow10(1) == 10;
    }
    assert Pow10(3) == 1000 by {
      assert Pow10(2) == 100 by {
        assert Pow10(1) == 10;
      }
    }
  }

  /** The id is what `parseInt(`${catId}${pad2(k)}`, 10)` gives. */
  lemma CatImageIdParses(catId: nat, k: nat)
    ensures ParseInt10(ImageIdText(catId, k)) == Num(CatImageId(catId, k))
  {
    CatImageIdValue(catId, k);
    ParseIntOfDigits(ImageIdText(catId, k));
  }

  /** The decimal value of the id text is the id. */
  lemma CatImageIdValue(catId: nat, k: nat)
    ensures DigitsValue(ImageIdText(catId, k)) == CatImageId(catId, k)
  {
    var o := NatToString(catId);
    SlotShape(k);
    SlotValue(k);
    SlotLength(k);
    DigitsValueConcat(o, Slot(k));
    DigitsValueOfNatToString(catId);
    assert ImageIdText(catId, k) == o + Slot(k);
  }

  /** `pad2(k)` has `SlotWidth(k)` characters. */
  lemma SlotLength(k: nat)
    ensures |Slot(k)| == SlotWidth(k)
  {
    NatToStringLength(k);
  }

  lemma {:induction false} NatToStringLength(n: nat)
    ensures |NatToString(n)| == DigitCount(n)
  {
    if n >= 10 {
      NatToStringLength(n / 10);
    }
  }

  /** `s.slice(-2)`: the last two characters, or all of a shorter string. */
  function LastTwo(s: string): (t: string)
    ensures |t| == if |s| < 2 then |s| else 2
    ensures t == s[|s| - |t|..]
  {
    if |s| <= 2 then s else s[|s| - 2..]
  }

  /** `currentImageIndex(cat_id)` given `MAX(image_id)` over the cat's images (None
      when the cat has none): a falsy maximum gives 0, otherwise the number written
      by the last two decimal digits of the maximum. */
  function CurrentImageIndex(maxImageId: Option<nat>): (index: nat)
    ensures index <= 99
  {
    match maxImageId
    case None => 0
    case Some(m) => if m == 0 then 0 else m % 100
  }

  /** The non-zero case is `parseInt(String(max).slice(-2), 10)`: the last two
      characters of the maximum's text, read back in base 10. */
  lemma CurrentImageIndexParses(m: nat)
    requires m != 0
    ensures ParseInt10(LastTwo(NatToString(m))) == Num(CurrentImageIndex(Some(m)))
  {
    LastTwoDigits(m);
    ParseIntOfDigits(LastTwo(NatToString(m)));
  }

  /** Round trip: for an image number of at most two digits, the index read back
      from the id is the number itself. */
  lemma IndexRoundTrip(catId: nat, k: nat)
    requires k <= 99
    ensures CurrentImageIndex(Some(CatImageId(catId, k))) == k
  {
    IndexOfId(catId, k, CatImageId(catId, k));
  }

  lemma IndexOfId(catId: nat, k: nat, id: nat)
    requires k <= 99 && id == catId * 100 + k
    ensures CurrentImageIndex(Some(id)) == k
  {
    ModHundred(catId, k);
  }

  lemma ModHundred(a: nat, b: nat)
    requires b < 100
    ensures (a * 100 + b) % 100 == b
  {
  }

  /** The hundredth image breaks the round trip: its id ends in "00", so the index
      read back is 0 and the next image gets the first image's id again. */
  lemma NumberingWrapsAtHundred(catId: nat)
    ensures CurrentImageIndex(Some(CatImageId(catId, 100))) == 0
    ensures CatImageId(catId, CurrentImageIndex(Some(CatImageId(catId, 100))) + 1) == CatImageId(catId, 1)
  {
    WrappedIndex(catId, CatImageId(catId, 100));
  }

  lemma WrappedIndex(catId: nat, id: nat)
    requires id == catId * 1000 + 100
    ensures CurrentImageIndex(Some(id)) == 0
  {
    assert id == (catId * 10 + 1) * 100;
    ModHundred(catId * 10 + 1, 0);
  }

  /** The ids of a post's images `1..count`, in upload order. */
  method PostImageIds(postId: nat, count: nat) returns (ids: seq<string>)
    ensures |ids| == count
    ensures forall i :: 0 <= i < count ==> ids[i] == ImageIdText(postId, i + 1)
  {
    ids := [];
    var i := 0;
    while i < count
      invariant 0 <= i <= count && |ids| == i
      invariant forall j :: 0 <= j < i ==> ids[j] == ImageIdText(postId, j + 1)
    {
      ids := ids + [ImageIdText(postId, i + 1)];
      i := i + 1;
    }
  }

  /** With at most 99 images, a post's image ids carry the post id as prefix, have
      two more characters, and are pairwise distinct. */
  lemma PostImageIdsShape(postId: nat, ids: seq<string>)
    requires |ids| <= 99
    requires forall i :: 0 <= i < |ids| ==> ids[i] == ImageIdText(postId, i + 1)
    ensures forall i :: 0 <= i < |ids| ==>
              StartsWith(ids[i], NatToString(postId)) && |ids[i]| == |NatToString(postId)| + 2
    ensures forall i, j :: 0 <= i < j < |ids| ==> ids[i] != ids[j]
  {
    forall i | 0 <= i < |ids|
      ensures StartsWith(ids[i], NatToString(postId)) && |ids[i]| == |NatToString(postId)| + 2
    {
      var t := ImageIdText(postId, i + 1);
    }
    forall i, j | 0 <= i < j < |ids|
      ensures ids[i] != ids[j]
    {
      DistinctIdTexts(postId, i + 1, j + 1);
    }
  }

  /** Different image numbers give different id texts for the same owner. */
  lemma DistinctIdTexts(owner: nat, a: nat, b: nat)
    requires a != b
    ensures ImageIdText(owner, a) != ImageIdText(owner, b)
  {
    var o := NatToString(owner);
    SlotValue(a);
    SlotValue(b);
    assert (o + Slot(a))[|o|..] == Slot(a);
    assert (o + Slot(b))[|o|..] == Slot(b);
  }

  /** One row of the `CatImage` table (the image path is left out). */
  datatype CatImage = CatImage(catId: nat, imageId: nat)

  /** `SELECT MAX(image_id) FROM CatImage WHERE cat_id = $1`. */
  function MaxImageId(rows: seq<CatImage>, catId: nat): (m: Option<nat>)
    ensures m.None? <==> forall r :: r in rows ==> r.catId != catId
    ensures m.Some? ==> CatImage(catId, m.value) in rows
    ensures m.Some? ==> forall r :: r in rows && r.catId == catId ==> r.imageId <= m.value
  {
    if rows == [] then None
    else
      var rest := MaxImageId(rows[1..], catId);
      assert forall r :: r in rows ==> r == rows[0] || r in rows[1..];
      if rows[0].catId != catId then rest
      else if rest.Some? && rest.value > rows[0].imageId then rest
      else Some(rows[0].imageId)
  }

  /** The rows for images `first, first + 1, …` of a cat, `count` of them, in
      upload order. */
  function NumberedRows(catId: nat, first: nat, count: nat): (rows: seq<CatImage>)
    ensures |rows| == count
  {
    if count == 0 then []
    else NumberedRows(catId, first, count - 1) + [CatImage(catId, CatImageId(catId, first + count - 1))]
  }

  /** Every image of the cat has an id `{catId}{pad2(k)}` with `1 <= k <= 99`,
      that is, strictly between `catId * 100` and `catId * 100 + 100`. */
  predicate WellNumbered(rows: seq<CatImage>, catId: nat) {
    forall r :: r in rows && r.catId == catId ==> catId * 100 < r.imageId < catId * 100 + 100
  }

  /** The rows for images `first ..` within 99, with their ids in arithmetic form. */
  lemma NumberedRowsIds(catId: nat, first: nat, count: nat)
    requires first + count <= 100
    ensures forall j :: 0 <= j < count ==>
              NumberedRows(catId, first, count)[j] == CatImage(catId, catId * 100 + first + j)
  {
    forall j | 0 <= j < count
      ensures NumberedRows(catId, first, count)[j] == CatImage(catId, catId * 100 + first + j)
    {
      NumberedRowAt(catId, first, count, j);
    }
  }

  lemma {:induction false} NumberedRowAt(catId: nat, first: nat, count: nat, j: nat)
    requires j < count && first + count <= 100
    ensures NumberedRows(catId, first, count)[j] == CatImage(catId, catId * 100 + first + j)
    decreases count
  {
    var shorter := NumberedRows(catId, first, count - 1);
    var last := CatImage(catId, CatImageId(catId, first + count - 1));
    assert NumberedRows(catId, first, count) == shorter + [last];
    if j < count - 1 {
      NumberedRowAt(catId, first, count - 1, j);
      assert (shorter + [last])[j] == shorter[j];
    } else {
      assert (shorter + [last])[j] == last;
      assert CatImageId(catId, first + j) == catId * 100 + (first + j);
    }
  }

  /** For a well-numbered cat, `currentImageIndex` reads back the number of its
      largest image, and 0 when it has none. */
  lemma IndexOfWellNumbered(rows: seq<CatImage>, catId: nat)
    requires WellNumbered(rows, catId)
    ensures var m := MaxImageId(rows, catId);
            CurrentImageIndex(m) == if m.None? then 0 else m.value - catId * 100
  {
    var m := MaxImageId(rows, catId);
    if m.Some? {
      assert CatImage(catId, m.value) in rows;
      IndexOfId(catId, m.value - catId * 100, m.value);
    }
  }

  /** Registering `count <= 99` images of a cat with no images leaves it well
      numbered, and `currentImageIndex` then reads back `count`. */
  lemma RegisterThenIndex(rows: seq<CatImage>, catId: nat, count: nat)
    requires forall r :: r in rows ==> r.catId != catId
    requires 1 <= count <= 99
    ensures WellNumbered(rows + NumberedRows(catId, 1, count), catId)
    ensures CurrentImageIndex(MaxImageId(rows + NumberedRows(catId, 1, count), catId)) == count
  {
    var added := NumberedRows(catId, 1, count);
    var all := rows + added;
    NumberedRowsIds(catId, 1, count);
    forall r | r in all && r.catId == catId
      ensures catId * 100 < r.imageId <= catId * 100 + count
    {
      assert r in added;
      var j :| 0 <= j < count && added[j] == r;
    }
    IndexOfWellNumbered(all, catId);
    assert added[count - 1] in all;
  }

  /** New images of a well-numbered cat continue above its largest id: while the
      numbers stay within 99, every new id exceeds every existing id of the cat. */
  lemma UpdateContinuesAboveMax(rows: seq<CatImage>, catId: nat, count: nat)
    requires WellNumbered(rows, catId)
    requires CurrentImageIndex(MaxImageId(rows, catId)) + count <= 99
    ensures var next := NumberedRows(catId, CurrentImageIndex(MaxImageId(rows, catId)) + 1, count);
            forall r, j :: r in rows && r.catId == catId && 0 <= j < count ==> r.imageId < next[j].imageId
  {
    var m := MaxImageId(rows, catId);
    var index := CurrentImageIndex(m);
    var next := NumberedRows(catId, index + 1, count);
    IndexOfWellNumbered(rows, catId);
    forall r, j | r in rows && r.catId == catId && 0 <= j < count
      ensures r.imageId < next[j].imageId
    {
      assert r.imageId <= m.value;
      NumberedRowAt(catId, index + 1, count, j);
    }
  }

  /** Within 99, the ids of consecutively numbered images increase. */
  lemma NewRowsIncrease(catId: nat, first: nat, count: nat)
    requires first + count <= 100
    ensures var next := NumberedRows(catId, first, count);
            forall i, j :: 0 <= i < j < count ==> next[i].imageId < next[j].imageId
  {
    var next := NumberedRows(catId, first, count);
    forall i, j | 0 <= i < j < count
      ensures next[i].imageId < next[j].imageId
    {
      NumberedRowAt(catId, first, count, i);
      NumberedRowAt(catId, first, count, j);
    }
  }

  /** Appending images numbered from `first >= 1` up to 99 keeps a cat well numbered. */
  lemma NewRowsWellNumbered(rows: seq<CatImage>, catId: nat, first: nat, count: nat)
    requires WellNumbered(rows, catId)
    requires 1 <= first && first + count <= 100
    ensures WellNumbered(rows + NumberedRows(catId, first, count), catId)
  {
    var next := NumberedRows(catId, first, count);
    NumberedRowsIds(catId, first, count);
    forall r | r in rows + next && r.catId == catId
      ensures catId * 100 < r.imageId < catId * 100 + 100
    {
      if r !in rows {
        var j :| 0 <= j < count && next[j] == r;
      }
    }
  }

  /** How many uploads go through, in order, before the first one whose file rename
      or `INSERT` throws (`fails(j)` for the upload at position `j`); all `count`
      when none does. The exception skips the uploads after it and keeps the rows
      already inserted. */
  function UploadsDone(fails: nat -> bool, count: nat): (n: nat)
    ensures n <= count
    ensures forall j :: 0 <= j < n ==> !fails(j)
    ensures n < count ==> fails(n)
  {
    if count == 0 then 0
    else
      var p := UploadsDone(fails, count - 1);
      if p == count - 1 && !fails(count - 1) then count else p
  }

  /** The `CatImage` table. */
  class CatImageTable {
    var rows: seq<CatImage>

    constructor(rows: seq<CatImage>)
      ensures this.rows == rows
    {
      this.rows := rows;
    }

    /** `/register-cat`: images `1..count` of a newly created cat, in upload order,
        up to the first upload that throws; `ok` is the 201 answer, false the 500. */
    method RegisterImages(catId: nat, count: nat, fails: nat -> bool) returns (ok: bool)
      modifies this
      ensures rows == old(rows) + NumberedRows(catId, 1, UploadsDone(fails, count))
      ensures ok <==> UploadsDone(fails, count) == count
    {
      var index := 1;
      while index <= count
        invariant 1 <= index <= count + 1
        invariant forall j :: 0 <= j < index - 1 ==> !fails(j)
        invariant rows == old(rows) + NumberedRows(catId, 1, index - 1)
      {
        if fails(index - 1) {
          StopsAt(fails, count, index - 1);
          return false;
        }
        var row := CatImage(catId, CatImageId(catId, index));
        ConcatAssoc(old(rows), NumberedRows(catId, 1, index - 1), [row]);
        rows := rows + [row];
        index := index + 1;
      }
      StopsAt(fails, count, count);
      return true;
    }

    /** `/update-cat-info` with `count` uploaded files: when there are any, the
        `MAX(image_id)` query runs, and numbering continues after
        `currentImageIndex`. A throwing `MAX` query inserts nothing; `ok` is the
        200 answer, false the 500. */
    method UpdateImages(catId: nat, count: nat, maxFails: bool, fails: nat -> bool) returns (ok: bool)
      modifies this
      ensures count > 0 && maxFails ==> rows == old(rows) && !ok
      ensures !(count > 0 && maxFails) ==>
        && rows == old(rows) + NumberedRows(catId, CurrentImageIndex(MaxImageId(old(rows), catId)) + 1,
                                            UploadsDone(fails, count))
        && (ok <==> UploadsDone(fails, count) == count)
    {
      if count > 0 {
        if maxFails {
          return false;
        }
        var index := CurrentImageIndex(MaxImageId(rows, catId));
        ok := AppendAfter(catId, index, count, fails);
        assert rows == old(rows) + NumberedRows(catId, index + 1, UploadsDone(fails, count));
      } else {
        ghost var index := CurrentImageIndex(MaxImageId(rows, catId));
        assert NumberedRows(catId, index + 1, UploadsDone(fails, count)) == [];
        assert rows == rows + [];
        ok := true;
      }
    }

    /** The upload loop of `/update-cat-info`: the index is advanced before each
        image, up to the first upload that throws. */
    method AppendAfter(catId: nat, index: nat, count: nat, fails: nat -> bool) returns (ok: bool)
      modifies this
      ensures rows == old(rows) + NumberedRows(catId, index + 1, UploadsDone(fails, count))
      ensures ok <==> UploadsDone(fails, count) == count
    {
      var current := index;
      var n := 0;
      while n < count
        invariant 0 <= n <= count && current == index + n
        invariant forall j :: 0 <= j < n ==> !fails(j)
        invariant rows == old(rows) + NumberedRows(catId, index + 1, n)
      {
        current := current + 1;
        if fails(n) {
          StopsAt(fails, count, n);
          return false;
        }
        var row := CatImage(catId, CatImageId(catId, current));
        ConcatAssoc(old(rows), NumberedRows(catId, index + 1, n), [row]);
        rows := rows + [row];
        n := n + 1;
      }
      StopsAt(fails, count, count);
      return true;
    }
  }

  /** The uploads done are the ones before the first that throws. */
  lemma StopsAt(fails: nat -> bool, count: nat, n: nat)
    requires n <= count
    requires forall j :: 0 <= j < n ==> !fails(j)
    requires n < count ==> fails(n)
    ensures UploadsDone(fails, count) == n
  {
  }

  /** `pad2(k)` is all digits, two of them up to 99 and three from 100 to 999. */
  lemma SlotShape(k: nat)
    ensures AllDigits(Slot(k))
    ensures k < 100 ==> |Slot(k)| == 2
    ensures 100 <= k < 1000 ==> |Slot(k)| == 3
  {
    if k < 10 {
      OneDigitSlot(k);
    } else {
      LongSlot(k);
      TextLength(k);
    }
  }

  /** `pad2(k)` is worth k. */
  lemma SlotValue(k: nat)
    ensures AllDigits(Slot(k)) && DigitsValue(Slot(k)) == k
  {
    if k < 10 {
      ShortSlotValue(k);
    } else {
      LongSlot(k);
      DigitsValueOfNatToString(k);
    }
  }

  lemma ShortSlotValue(k: nat)
    requires k < 10
    ensures AllDigits(Slot(k)) && DigitsValue(Slot(k)) == k
  {
    OneDigitSlot(k);
    TwoDigitsValue(0, k);
  }

  lemma OneDigitSlot(k: nat)
    requires k < 10
    ensures Slot(k) == [DigitChar(0), DigitChar(k)]
  {
    var t := [DigitChar(0), DigitChar(k)];
    assert PadStart([DigitChar(k)], 2, '0') == PadStart(t, 2, '0');
  }

  lemma LongSlot(k: nat)
    requires k >= 10
    ensures Slot(k) == NatToString(k)
  {
    assert NatToString(k) == NatToString(k / 10) + [DigitChar(k % 10)];
  }

  lemma TextLength(k: nat)
    ensures 10 <= k < 100 ==> |NatToString(k)| == 2
    ensures 100 <= k < 1000 ==> |NatToString(k)| == 3
  {
    if 10 <= k < 1000 {
      assert NatToString(k) == NatToString(k / 10) + [DigitChar(k % 10)];
      if k >= 100 {
        assert NatToString(k / 10) == NatToString(k / 100) + [DigitChar(k / 10 % 10)];
      }
    }
  }

  lemma AllDigitsConcat(a: string, b: string)
    requires AllDigits(a) && AllDigits(b)
    ensures AllDigits(a + b)
  {
    forall i | 0 <= i < |a + b|
      ensures IsDigit((a + b)[i])
    {
      if i >= |a| {
        assert (a + b)[i] == b[i - |a|];
      }
    }
  }

  /** Decimal digits concatenate as place values. */
  lemma {:induction false} DigitsValueConcat(a: string, b: string)
    requires AllDigits(a) && AllDigits(b)
    ensures AllDigits(a + b)
    ensures DigitsValue(a + b) == DigitsValue(a) * Pow10(|b|) + DigitsValue(b)
  {
    if b == [] {
      assert a + b == a;
    } else {
      var b' := b[..|b| - 1];
      assert (a + b)[..|a + b| - 1] == a + b';
      DigitsValueConcat(a, b');
      ShiftPlace(DigitsValue(a), Pow10(|b'|), DigitsValue(b'), DigitValue(b[|b| - 1]));
    }
  }

  lemma ShiftPlace(x: int, p: int, y: int, d: int)
    ensures (x * p + y) * 10 + d == x * (10 * p) + (y * 10 + d)
  {
  }

  /** `m % 100` from the two lowest decimal digits. */
  lemma LowTwoDigits(m: nat)
    ensures m / 10 % 10 * 10 + m % 10 == m % 100
  {
    var c := m % 10;
    var q := m / 10;
    var b := q % 10;
    var a := q / 10;
    assert m == 100 * a + (10 * b + c);
  }

  /** The last character of `String(q)` is the digit `q % 10`. */
  lemma LastDigit(q: nat)
    ensures NatToString(q)[|NatToString(q)| - 1] == DigitChar(q % 10)
  {
    if q >= 10 {
      assert NatToString(q) == NatToString(q / 10) + [DigitChar(q % 10)];
    }
  }

  /** The last two characters of `String(m)` are digits worth `m % 100`. */
  lemma LastTwoDigits(m: nat)
    ensures LastTwo(NatToString(m)) != [] && AllDigits(LastTwo(NatToString(m)))
    ensures DigitsValue(LastTwo(NatToString(m))) == m % 100
  {
    if m >= 10 {
      LastTwoText(m);
      TwoDigitsValue(m / 10 % 10, m % 10);
      LowTwoDigits(m);
    } else {
      OneDigitValue(m);
    }
  }

  lemma LastTwoText(m: nat)
    requires m >= 10
    ensures LastTwo(NatToString(m)) == [DigitChar(m / 10 % 10), DigitChar(m % 10)]
  {
    LastDigit(m / 10);
    assert NatToString(m) == NatToString(m / 10) + [DigitChar(m % 10)];
    LastTwoOfSnoc(NatToString(m / 10), DigitChar(m % 10));
  }

  lemma LastTwoOfSnoc(head: string, c: char)
    requires |head| >= 1
    ensures LastTwo(head + [c]) == [head[|head| - 1], c]
  {
  }

  lemma OneDigitValue(d: nat)
    requires d < 10
    ensures DigitsValue([DigitChar(d)]) == d
  {
    assert [DigitChar(d)][..0] == [];
  }

  lemma TwoDigitsValue(a: nat, b: nat)
    requires a < 10 && b < 10
    ensures DigitsValue([DigitChar(a), DigitChar(b)]) == a * 10 + b
  {
    var t := [DigitChar(a), DigitChar(b)];
    assert t[..1] == [DigitChar(a)];
    OneDigitValue(a);
  }
}
