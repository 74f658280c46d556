/**
 `CDialogTemplate`: parsing, saving into a buffer of the computed size, and that size.
 */
module DialogTemplate {
  import opened Numbers
  import opened Bytes
  import opened DialogFormat
  import opened DialogRoundTrip

  /** All creation data has an even size, except perhaps the last. */
  predicate EvenData(items: seq<Item>) {
    forall i :: 0 <= i < |items| - 1 ==> |items[i].creationData| % 2 == 0
  }

  /** Items must start at multiples of four. */
  ghost predicate ItemsAligned(unicode: bool, t: Template) {
    forall k: nat :: k < |t.items| ==> Skip(|Image(unicode, t, k)|) % 4 == 0
  }

  lemma SkipParity(n: nat)
    ensures Skip(n) % 2 == n % 2
  {
  }

  lemma ParityOfRest(n: nat)
    ensures n % 2 == n % 4 % 2
  {
  }

  lemma RestAfterWord(n: nat)
    ensures (n + 2) % 4 == if n % 4 < 2 then n % 4 + 2 else n % 4 - 2
  {
  }

  /** Skipping one word aligns an even position, and no odd one. */
  lemma SkipAligns(n: nat)
    ensures Skip(n) % 4 == 0 <==> n % 2 == 0
  {
    ParityOfRest(n);
    RestAfterWord(n);
  }

  lemma SkipIsAlign(n: nat)
    requires n % 2 == 0
    ensures Skip(n) == Align(n, 4)
  {
  }

  function ItemSize(extended: bool, item: Item): nat {
    (if extended then 24 else 18) + 2 * |VarLenWords(item.className)| + 2 * |VarLenWords(item.title)|
    + 2 + |item.creationData|
  }

  lemma ItemSizeParity(extended: bool, item: Item)
    ensures ItemSize(extended, item) % 2 == |item.creationData| % 2
  {
  }

  function SizeOf(t: Template, k: nat): nat
    requires k <= |t.items|
  {
    if k == 0 then 2 * |FrontWords(t)| else Align(SizeOf(t, k - 1), 4) + ItemSize(t.extended, t.items[k - 1])
  }

  lemma ItemBytesSize(unicode: bool, extended: bool, item: Item)
    ensures |ItemBytes(extended, ForTarget(unicode, item))| == ItemSize(extended, item)
  {
  }

  lemma ImageStep(unicode: bool, t: Template, k: nat)
    requires k < |t.items|
    ensures |Image(unicode, t, k + 1)| == Skip(|Image(unicode, t, k)|) + ItemSize(t.extended, t.items[k])
  {
    hide ItemBytes, ForTarget, Words, FrontWords, ItemSize;
    ItemBytesSize(unicode, t.extended, t.items[k]);
  }

  lemma {:induction false} ImageSize(unicode: bool, t: Template, k: nat)
    requires k <= |t.items| && EvenData(t.items)
    ensures |Image(unicode, t, k)| == SizeOf(t, k) && (k < |t.items| ==> SizeOf(t, k) % 2 == 0)
  {
    hide Image, ItemSize, FrontWords, Skip, Align;
    if k == 0 {
      NoItems(unicode, t);
    } else {
      ImageSize(unicode, t, k - 1);
      ImageStep(unicode, t, k - 1);
      SkipParity(SizeOf(t, k - 1));
      SkipIsAlign(SizeOf(t, k - 1));
      ItemSizeParity(t.extended, t.items[k - 1]);
    }
  }

  /** The items of a saved template are aligned exactly if no creation data but the last has an odd size. */
  lemma AlignedIffEven(unicode: bool, t: Template)
    ensures ItemsAligned(unicode, t) <==> EvenData(t.items)
  {
    hide Image, ItemSize, SizeOf, Skip;
    if EvenData(t.items) {
      forall k: nat | k < |t.items|
        ensures Skip(|Image(unicode, t, k)|) % 4 == 0
      {
        ImageSize(unicode, t, k);
        SkipAligns(|Image(unicode, t, k)|);
      }
    }
    if ItemsAligned(unicode, t) {
      forall i | 0 <= i < |t.items| - 1
        ensures |t.items[i].creationData| % 2 == 0
      {
        ImageStep(unicode, t, i);
        SkipAligns(|Image(unicode, t, i)|);
        SkipParity(|Image(unicode, t, i)|);
        SkipAligns(|Image(unicode, t, i + 1)|);
        ItemSizeParity(t.extended, t.items[i]);
      }
    }
  }

  /* ---------- when the computed size is right ---------- */

  /** Where saving stands after some items, modulo four, and how far it is ahead of the computed size. */
  datatype Phase = Phase(pos: nat, ahead: int)

  /** Both positions followed through the items, by the sizes of the items alone. */
  function PhaseAfter(t: Template, k: nat): Phase
    requires k <= |t.items|
  {
    if k == 0 then Phase(2 * |FrontWords(t)| % 4, 0)
    else
      var p := PhaseAfter(t, k - 1);
      var skipped, aligned := if p.pos != 0 then 2 else 0, (p.ahead - p.pos) % 4;
      Phase((p.pos + skipped + ItemSize(t.extended, t.items[k - 1])) % 4, p.ahead + skipped - aligned)
  }

  predicate SizesAgree(t: Template) {
    PhaseAfter(t, |t.items|).ahead == 0
  }

  lemma AlignAmount(z: nat, s: nat, ahead: int)
    requires s == z + ahead
    ensures Align(z, 4) == z + (ahead - s % 4) % 4
  {
    assert (ahead - s % 4) % 4 == (0 - z) % 4;
    assert (0 - z) % 4 == if z % 4 == 0 then 0 else 4 - z % 4;
  }

  lemma RestOfSum(s: nat, more: nat)
    ensures (s % 4 + more) % 4 == (s + more) % 4
  {
  }

  lemma {:induction false} PhaseIsRight(unicode: bool, t: Template, k: nat)
    requires k <= |t.items|
    ensures PhaseAfter(t, k).pos == |Image(unicode, t, k)| % 4
    ensures |Image(unicode, t, k)| == SizeOf(t, k) + PhaseAfter(t, k).ahead
  {
    hide Image, ItemSize, FrontWords, Align;
    if k == 0 {
      NoItems(unicode, t);
    } else {
      PhaseIsRight(unicode, t, k - 1);
      ImageStep(unicode, t, k - 1);
      var s, p := |Image(unicode, t, k - 1)|, PhaseAfter(t, k - 1);
      AlignAmount(SizeOf(t, k - 1), s, p.ahead);
      RestOfSum(s, (if p.pos != 0 then 2 else 0) + ItemSize(t.extended, t.items[k - 1]));
    }
  }

  /** The number of items with odd creation data among the first `k`. */
  function OddItems(items: seq<Item>, k: nat): nat
    requires k <= |items|
  {
    if k == 0 then 0 else OddItems(items, k - 1) + |items[k - 1].creationData| % 2
  }

  lemma {:induction false} ImageParity(unicode: bool, t: Template, k: nat)
    requires k <= |t.items|
    ensures |Image(unicode, t, k)| % 2 == OddItems(t.items, k) % 2
  {
    hide Image, ItemSize, FrontWords, Skip;
    if k == 0 {
      NoItems(unicode, t);
    } else {
      ImageParity(unicode, t, k - 1);
      ImageStep(unicode, t, k - 1);
      SkipParity(|Image(unicode, t, k - 1)|);
      ItemSizeParity(t.extended, t.items[k - 1]);
    }
  }

  lemma AlignIsEven(n: nat)
    ensures Align(n, 4) % 2 == 0
  {
    ParityOfRest(n);
  }

  lemma ParityDiffers(image: nat, odd: nat, last: nat, aligned: nat, size: nat)
    requires image % 2 == (odd + last % 2) % 2 && odd % 2 == 1 && aligned % 2 == 0 && size % 2 == last % 2
    ensures image != aligned + size
  {
  }

  /** An odd number of items with odd creation data, not counting the last item, always makes the saved bytes
      and the computed size differ. */
  lemma OddCountDisagrees(unicode: bool, t: Template)
    requires t.items != [] && OddItems(t.items, |t.items| - 1) % 2 == 1
    ensures |Image(unicode, t, |t.items|)| != SizeOf(t, |t.items|) && !SizesAgree(t)
  {
    hide Image, ItemSize, FrontWords, PhaseAfter, Align;
    var n := |t.items|;
    ImageParity(unicode, t, n);
    AlignIsEven(SizeOf(t, n - 1));
    ItemSizeParity(t.extended, t.items[n - 1]);
    ParityDiffers(|Image(unicode, t, n)|, OddItems(t.items, n - 1), |t.items[n - 1].creationData|,
                  Align(SizeOf(t, n - 1), 4), ItemSize(t.extended, t.items[n - 1]));
    PhaseIsRight(unicode, t, n);
  }

  lemma EvenAgrees(t: Template)
    requires EvenData(t.items)
    ensures SizesAgree(t)
  {
    hide Image, PhaseAfter, SizeOf;
    ImageSize(false, t, |t.items|);
    PhaseIsRight(false, t, |t.items|);
  }

  /* ---------- parsing ---------- */

  /** `ReadVarLenArr`. */
  method ReadVarLenArr(data: seq<Byte>, seeker: nat) returns (v: VarLen, next: nat)
    requires ReadVarLen(data, seeker).Ok?
    ensures ReadVarLen(data, seeker) == Ok(v, next)
  {
    var first := Get16(data, seeker);
    if first == 0 {
      return Nothing, seeker + 2;
    }
    if first == 0xFFFF {
      var id := Get16(data, seeker + 2);
      return if id == 0 then Nothing else Id(id), seeker + 4;
    }
    var text := [];
    next := seeker;
    var w := Get16(data, next);
    assert text + ReadText(data, next).value == ReadText(data, next).value;
    while w != 0
      invariant next + 2 <= |data| && w == Get16(data, next) && ReadText(data, next).Ok?
      invariant text != [] || (w != 0 && next == seeker)
      invariant ReadText(data, seeker) == Ok(text + ReadText(data, next).value, ReadText(data, next).next)
      decreases |data| - next
    {
      assert text + ([w] + ReadText(data, next + 2).value) == text + [w] + ReadText(data, next + 2).value;
      text := text + [w];
      next := next + 2;
      w := Get16(data, next);
    }
    assert ReadText(data, next).value == [] && text + [] == text;
    return Text(text), next + 2;
  }

  lemma {:induction false} EarlierItemsRead(data: seq<Byte>, extended: bool, start: nat, j: nat, k: nat)
    requires ReadItems(data, extended, start, k).Ok? && j <= k
    ensures ReadItems(data, extended, start, j).Ok?
  {
    if j < k {
      EarlierItemsRead(data, extended, start, j, k - 1);
    }
  }

  method ReadOneItem(data: seq<Byte>, extended: bool, seeker: nat) returns (item: Item, next: nat)
    requires ReadItem(data, extended, seeker).Ok?
    ensures ReadItem(data, extended, seeker) == Ok(item, next)
  {
    hide Get16, Get32, ReadVarLen;
    if extended {
      item := Item(Get32(data, seeker), Get32(data, seeker + 4), Get32(data, seeker + 8), Get16(data, seeker + 12),
                   Get16(data, seeker + 14), Get16(data, seeker + 16), Get16(data, seeker + 18),
                   Get16(data, seeker + 20), Nothing, Nothing, []);
      next := seeker + 24;
    } else {
      item := Item(0, Get32(data, seeker + 4), Get32(data, seeker), Get16(data, seeker + 8), Get16(data, seeker + 10),
                   Get16(data, seeker + 12), Get16(data, seeker + 14), Get16(data, seeker + 16), Nothing, Nothing, []);
      next := seeker + 18;
    }
    var v;
    v, next := ReadVarLenArr(data, next);
    item := item.(className := v);
    v, next := ReadVarLenArr(data, next);
    item := item.(title := v);
    var size := Get16(data, next);
    next := next + 2;
    assert data[next..next] == [];
    if size != 0 {
      size := (size + 0x1_0000 - 2) % 0x1_0000;
      item := item.(creationData := data[next..next + size]);
      next := next + size;
    }
  }

  /* ---------- saving ---------- */

  /** The buffer holds `image`, and zeros after it. */
  ghost predicate Holds(buf: array<Byte>, image: seq<Byte>)
    reads buf
  {
    && |image| <= buf.Length && buf[..|image|] == image
    && forall i :: |image| <= i < buf.Length ==> buf[i] == 0
  }

  lemma HoldsNothing(buf: array<Byte>)
    requires forall i :: 0 <= i < buf.Length ==> buf[i] == 0
    ensures Holds(buf, [])
  {
  }

  lemma HoldsAll(buf: array<Byte>, image: seq<Byte>)
    requires Holds(buf, image) && |image| == buf.Length
    ensures buf[..] == image
  {
  }

  method Put(buf: array<Byte>, ghost image: seq<Byte>, seeker: nat, bytes: seq<Byte>) returns (next: nat)
    requires Holds(buf, image) && seeker == |image| && seeker + |bytes| <= buf.Length
    modifies buf
    ensures Holds(buf, image + bytes) && next == seeker + |bytes|
  {
    for i := 0 to |bytes|
      invariant buf[..seeker] == image && buf[seeker..seeker + i] == bytes[..i]
      invariant forall j :: seeker + i <= j < buf.Length ==> buf[j] == 0
    {
      buf[seeker + i] := bytes[i];
      assert buf[seeker..seeker + i + 1] == buf[seeker..seeker + i] + [bytes[i]];
    }
    next := seeker + |bytes|;
    assert buf[..next] == buf[..seeker] + buf[seeker..next];
  }

  /** Leaves a zero word. */
  method SkipWord(buf: array<Byte>, ghost image: seq<Byte>, seeker: nat) returns (next: nat)
    requires Holds(buf, image) && seeker == |image| && seeker + 2 <= buf.Length
    ensures Holds(buf, image + [0, 0]) && next == seeker + 2
  {
    next := seeker + 2;
    assert buf[..next] == buf[..seeker] + [buf[seeker], buf[seeker + 1]];
  }

  /** `WriteStringOrId`. */
  method WriteStringOrId(buf: array<Byte>, ghost image: seq<Byte>, seeker: nat, v: VarLen) returns (next: nat)
    requires Holds(buf, image) && seeker == |image| && seeker + 2 * |VarLenWords(v)| <= buf.Length
    modifies buf
    ensures Holds(buf, image + Words(VarLenWords(v))) && next == seeker + 2 * |VarLenWords(v)|
  {
    match v {
      case Nothing =>
        next := SkipWord(buf, image, seeker);
        assert Words([0]) == [0, 0];
      case Id(id) =>
        next := Put(buf, image, seeker, Words([0xFFFF]));
        next := Put(buf, image + Words([0xFFFF]), next, Words([id]));
        WordsConcat([0xFFFF], [id]);
        assert [0xFFFF] + [id] == [0xFFFF, id];
        assert image + Words([0xFFFF]) + Words([id]) == image + Words([0xFFFF, id]);
      case Text(text) =>
        next := Put(buf, image, seeker, Words(text + [0]));
    }
  }

  lemma FrontSize(t: Template)
    ensures 2 * |FrontWords(t)| == (if t.extended then 26 else 18)
                                   + StringOrIdSize(t.menu) + StringOrIdSize(t.className) + StringOrIdSize(t.title)
                                   + if HasFont(t.style)
                                     then (if t.extended then 6 else 2) + StringOrIdSize(t.font.face) else 0
  {
  }

  lemma FrontParts(t: Template)
    ensures Words(FrontWords(t)) ==
            Words(HeaderWords(t)) + Words(VarLenWords(t.menu)) + Words(VarLenWords(t.className))
            + Words(VarLenWords(t.title)) + Words(FontWords(t))
  {
    hide Words, HeaderWords, FontWords;
    var h, menu, name, title := HeaderWords(t), VarLenWords(t.menu), VarLenWords(t.className), VarLenWords(t.title);
    WordsConcat(h + menu + name + title, FontWords(t));
    WordsConcat(h + menu + name, title);
    WordsConcat(h + menu, name);
    WordsConcat(h, menu);
  }

  lemma NoFont(t: Template)
    requires !HasFont(t.style)
    ensures Words(FontWords(t)) == []
  {
  }

  lemma FontParts(t: Template, fixed: seq<Word>, image: seq<Byte>)
    requires HasFont(t.style)
    requires fixed == [t.font.size] + if t.extended then [t.font.weight, t.font.italic + 256 * t.font.charset] else []
    ensures |Words(FontWords(t))| == |Words(fixed)| + 2 * |VarLenWords(t.font.face)|
    ensures image + Words(FontWords(t)) == image + Words(fixed) + Words(VarLenWords(t.font.face))
  {
    hide Words, VarLenWords;
    WordsConcat(fixed, VarLenWords(t.font.face));
  }

  lemma Regroup(p: seq<Byte>, a: seq<Byte>, b: seq<Byte>, c: seq<Byte>, d: seq<Byte>, e: seq<Byte>)
    ensures p + (a + b + c + d + e) == p + a + b + c + d + e
  {
  }

  lemma ItemParts(extended: bool, item: Item)
    ensures ItemBytes(extended, item) ==
            Words(ItemWords(extended, item)) + Words(VarLenWords(item.className)) + Words(VarLenWords(item.title))
            + Words([DataWord(|item.creationData|)]) + item.creationData
  {
    hide Words, ItemWords, DataWord;
    var h, name, title, size := ItemWords(extended, item), VarLenWords(item.className), VarLenWords(item.title),
                                [DataWord(|item.creationData|)];
    WordsConcat(h + name + title, size);
    WordsConcat(h + name, title);
    WordsConcat(h, name);
  }

  lemma SizeGrows(unicode: bool, t: Template, j: nat, k: nat)
    requires j <= k <= |t.items|
    ensures |Image(unicode, t, j)| <= |Image(unicode, t, k)|
  {
    hide ItemBytes, ForTarget, Words, FrontWords;
  }

  lemma FrontFirst(data: seq<Byte>)
    requires ReadTemplate(data).Ok?
    ensures ReadHeader(data).Ok? && ReadFront(data).Ok?
  {
  }

  class CDialogTemplate {
    const unicode: bool
    var extended: bool
    var helpId: DWord
    var exStyle: DWord
    var style: DWord
    var x: Word
    var y: Word
    var width: Word
    var height: Word
    var menu: VarLen
    var className: VarLen
    var title: VarLen
    var font: Font
    var items: seq<Item>

    function View(): Template
      reads this
    {
      Template(extended, helpId, exStyle, style, x, y, width, height, menu, className, title, font, items)
    }

    /** Parses bytes that hold a whole template; the source does not look for their end. */
    constructor (data: seq<Byte>, unicode: bool)
      requires ReadTemplate(data).Ok?
      ensures this.unicode == unicode && View() == ReadTemplate(data).value
    {
      this.unicode := unicode;
      new;
      hide ReadHeader, ReadFront, ReadItems, Get16, Get32;
      FrontFirst(data);
      menu, className, title, font, items := Nothing, Nothing, Nothing, NO_FONT, [];
      var count, seeker := ReadHead(data);
      seeker := ReadArrays(data, seeker, count);
      ReadItemsInto(data, seeker, count);
    }

    method ReadArrays(data: seq<Byte>, start: nat, ghost count: nat) returns (seeker: nat)
      requires ReadFront(data).Ok? && ReadHeader(data) == Ok((View(), count), start) && font == NO_FONT && items == []
      modifies this`menu, this`className, this`title, this`font
      ensures ReadFront(data) == Ok((View(), count), seeker)
    {
      hide ReadHeader, ReadVarLen, ReadFont, ReadItems, HasFont, Get16, Get32;
      menu, seeker := ReadVarLenArr(data, start);
      className, seeker := ReadVarLenArr(data, seeker);
      title, seeker := ReadVarLenArr(data, seeker);
      seeker := ReadFontInto(data, seeker);
    }

    method ReadHead(data: seq<Byte>) returns (count: nat, seeker: nat)
      requires ReadHeader(data).Ok?
      requires menu == className == title == Nothing && font == NO_FONT && items == []
      modifies this
      ensures ReadHeader(data) == Ok((View(), count), seeker) && font == NO_FONT && items == []
    {
      hide Get16, Get32;
      helpId := 0;
      extended := Get32(data, 0) == EXTENDED_DIALOG;
      if extended {
        helpId, exStyle, style := Get32(data, 4), Get32(data, 8), Get32(data, 12);
        x, y, width, height := Get16(data, 18), Get16(data, 20), Get16(data, 22), Get16(data, 24);
        count, seeker := Get16(data, 16), 26;
      } else {
        style, exStyle := Get32(data, 0), Get32(data, 4);
        x, y, width, height := Get16(data, 10), Get16(data, 12), Get16(data, 14), Get16(data, 16);
        count, seeker := Get16(data, 8), 18;
      }
    }

    method ReadFontInto(data: seq<Byte>, seeker: nat) returns (next: nat)
      requires ReadFont(data, extended, style, seeker).Ok? && font == NO_FONT
      modifies this`font
      ensures ReadFont(data, extended, style, seeker) == Ok(font, next)
    {
      next := seeker;
      if HasFont(style) {
        font := font.(size := Get16(data, next));
        next := next + 2;
        if extended {
          font := font.(weight := Get16(data, next), italic := data[next + 2], charset := data[next + 3]);
          next := next + 4;
        }
        var face;
        face, next := ReadVarLenArr(data, next);
        font := font.(face := face);
      }
    }

    method ReadItemsInto(data: seq<Byte>, start: nat, count: nat)
      requires ReadItems(data, extended, start, count).Ok? && items == []
      modifies this`items
      ensures items == ReadItems(data, extended, start, count).value
    {
      hide ReadItem;
      var seeker := start;
      for i := 0 to count
        invariant ReadItems(data, extended, start, i) == Ok(items, seeker)
      {
        EarlierItemsRead(data, extended, start, i + 1, count);
        if seeker % 4 != 0 {
          seeker := seeker + 2;
        }
        var item;
        item, seeker := ReadOneItem(data, extended, seeker);
        items := items + [item];
      }
    }

    /** `SetFont`; the character set changes also where a standard dialog has none. */
    method SetFont(faceName: seq<Word>, fontSize: Word)
      modifies this`style, this`font
      ensures View() == WithFont(old(View()), faceName, fontSize)
    {
      style := style / 0x80 * 0x80 + style / 0x10 % 4 * 0x10 + style % 8;
      if faceName == SHELL_FONT {
        style := style + 8;
      }
      style := style + 0x40;
      font := font.(charset := DEFAULT_CHARSET);
      font := font.(face := Text(faceName));
      font := font.(size := fontSize);
    }

    method GetSize() returns (size: nat)
      ensures size == SizeOf(View(), |items|)
      ensures size == |Image(unicode, View(), |items|)| <==> SizesAgree(View())
    {
      hide Image, FrontWords, VarLenWords, HasFont, PhaseAfter;
      FrontSize(View());
      size := if extended then 26 else 18;
      size := size + StringOrIdSize(menu);
      size := size + StringOrIdSize(className);
      size := size + StringOrIdSize(title);
      if HasFont(style) {
        size := size + 2 + if extended then 4 else 0;
        size := size + StringOrIdSize(font.face);
      }
      for i := 0 to |items|
        invariant size == SizeOf(View(), i)
      {
        size := if size % 4 == 0 then size else size - size % 4 + 4;
        size := size + if extended then 24 else 18;
        size := size + StringOrIdSize(items[i].className);
        size := size + StringOrIdSize(items[i].title);
        size := size + 2 + |items[i].creationData|;
      }
      PhaseIsRight(unicode, View(), |items|);
    }

    /** Saves the template; the buffer is filled exactly, as the source asserts. */
    method Save() returns (dlg: array<Byte>, size: nat)
      requires SizesAgree(View())
      ensures fresh(dlg) && dlg[..] == Image(unicode, View(), |items|) && size == dlg.Length
    {
      hide Image, SizeOf, Holds, PhaseAfter;
      size := GetSize();
      dlg := new Byte[size](_ => 0);
      HoldsNothing(dlg);
      ghost var t := View();
      SizeGrows(unicode, t, 0, |items|);
      var seeker := SaveFront(dlg);
      for i := 0 to |items|
        invariant Holds(dlg, Image(unicode, t, i)) && seeker == |Image(unicode, t, i)|
      {
        SizeGrows(unicode, t, i + 1, |items|);
        seeker := SaveItem(dlg, i, seeker);
      }
      HoldsAll(dlg, Image(unicode, t, |items|));
    }

    method SaveFront(buf: array<Byte>) returns (seeker: nat)
      requires Holds(buf, []) && |Image(unicode, View(), 0)| <= buf.Length
      modifies buf
      ensures Holds(buf, Image(unicode, View(), 0)) && seeker == |Image(unicode, View(), 0)|
    {
      hide Holds, Words, HeaderWords, VarLenWords;
      ghost var t := View();
      FrontParts(t);
      ghost var image := [];
      var header := Words(HeaderWords(View()));
      seeker := Put(buf, image, 0, header);
      image := header;
      assert [] + header == header;
      seeker := WriteStringOrId(buf, image, seeker, menu);
      image := image + Words(VarLenWords(menu));
      seeker := WriteStringOrId(buf, image, seeker, className);
      image := image + Words(VarLenWords(className));
      seeker := WriteStringOrId(buf, image, seeker, title);
      image := image + Words(VarLenWords(title));
      if HasFont(style) {
        seeker := SaveFont(buf, image, seeker);
      } else {
        NoFont(t);
        assert image + [] == image;
      }
      NoItems(unicode, t);
    }

    method SaveFont(buf: array<Byte>, ghost image: seq<Byte>, seeker: nat) returns (next: nat)
      requires Holds(buf, image) && HasFont(style) && seeker == |image|
      requires seeker + |Words(FontWords(View()))| <= buf.Length
      modifies buf
      ensures Holds(buf, image + Words(FontWords(View()))) && next == seeker + |Words(FontWords(View()))|
    {
      hide Holds, Words, FontWords, VarLenWords;
      var fixed: seq<Word> := [font.size];
      if extended {
        fixed := fixed + [font.weight, font.italic + 256 * font.charset];
      }
      FontParts(View(), fixed, image);
      next := Put(buf, image, seeker, Words(fixed));
      next := WriteStringOrId(buf, image + Words(fixed), next, font.face);
    }

    method SaveItem(buf: array<Byte>, i: nat, seeker: nat) returns (next: nat)
      requires i < |items| && Holds(buf, Image(unicode, View(), i)) && seeker == |Image(unicode, View(), i)|
      requires |Image(unicode, View(), i + 1)| <= buf.Length
      modifies buf
      ensures Holds(buf, Image(unicode, View(), i + 1)) && next == |Image(unicode, View(), i + 1)|
    {
      hide Holds, ItemBytes, ForTarget;
      ghost var before := Image(unicode, View(), i);
      next := seeker;
      if next % 4 != 0 {
        next := SkipWord(buf, before, next);
      } else {
        assert before + [] == before;
      }
      next := SaveItemAt(buf, before + Padding(|before|), next, ForTarget(unicode, items[i]));
    }

    method SaveItemAt(buf: array<Byte>, ghost start: seq<Byte>, seeker: nat, item: Item) returns (next: nat)
      requires Holds(buf, start) && seeker == |start| && seeker + |ItemBytes(extended, item)| <= buf.Length
      modifies buf
      ensures Holds(buf, start + ItemBytes(extended, item)) && next == seeker + |ItemBytes(extended, item)|
    {
      hide Holds, Words, ItemWords, VarLenWords, ItemBytes;
      ItemParts(extended, item);
      ghost var a, b, c := Words(ItemWords(extended, item)), Words(VarLenWords(item.className)),
          Words(VarLenWords(item.title));
      next := Put(buf, start, seeker, Words(ItemWords(extended, item)));
      next := WriteStringOrId(buf, start + a, next, item.className);
      next := WriteStringOrId(buf, start + a + b, next, item.title);
      var size: Word := |item.creationData| % 0x1_0000;
      if size != 0 {
        size := (size + 2) % 0x1_0000;
      }
      assert size == DataWord(|item.creationData|);
      next := Put(buf, start + a + b + c, next, Words([size]));
      next := Put(buf, start + a + b + c + Words([size]), next, item.creationData);
      Regroup(start, a, b, c, Words([size]), item.creationData);
    }
  }

  /** What `AddStringOrIdSize` adds. */
  function StringOrIdSize(v: VarLen): (n: nat)
    ensures n == 2 * |VarLenWords(v)|
  {
    match v
    case Nothing => 2
    case Id(_) => 4
    case Text(text) => (|text| + 1) * 2
  }

  /** An extended dialog with two items, the first with one byte of creation data. */
  const ODD_ITEM := Item(0, 0, 0, 0, 0, 0, 0, 1, Nothing, Nothing, [7])
  const ODD_DIALOG := Template(true, 0, 0, 0, 0, 0, 0, 0, Nothing, Nothing, Nothing, NO_FONT, [ODD_ITEM, ODD_ITEM])

  /** With odd creation data before another item, what is saved can be longer than the computed size. */
  lemma OddDataOverruns(unicode: bool)
    ensures WellFormed(ODD_DIALOG) && !EvenData(ODD_DIALOG.items)
    ensures |Image(unicode, ODD_DIALOG, 2)| == SizeOf(ODD_DIALOG, 2) + 1
  {
    hide Image, Words;
    NoItems(unicode, ODD_DIALOG);
    FrontSize(ODD_DIALOG);
    ImageStep(unicode, ODD_DIALOG, 0);
    ImageStep(unicode, ODD_DIALOG, 1);
    assert ODD_DIALOG.items[0] == ODD_ITEM && ItemSize(true, ODD_ITEM) == 31;
    assert SizeOf(ODD_DIALOG, 0) == 32 && SizeOf(ODD_DIALOG, 1) == 63 && SizeOf(ODD_DIALOG, 2) == 95;
  }

  /** Saving a template and parsing what was saved. */
  method SaveAndParse(d: CDialogTemplate) returns (e: CDialogTemplate)
    requires CStrings(d.View()) && WellFormed(d.View()) && SizesAgree(d.View())
    ensures e.View() == d.View().(items := Renamed(d.unicode, d.items))
  {
    hide ReadTemplate, Image, CStrings, WellFormed, SizesAgree;
    var dlg, size := d.Save();
    SavedIsAt(dlg[..], d.unicode, d.View());
    RoundTrip(dlg[..], d.unicode, d.View());
    e := new CDialogTemplate(dlg[..], d.unicode);
  }

  lemma SavedIsAt(data: seq<Byte>, unicode: bool, t: Template)
    requires data == Image(unicode, t, |t.items|)
    ensures At(data, 0, Image(unicode, t, |t.items|))
  {
  }

  /** Any template that was parsed comes back from being saved, if its sizes agree. */
  method ParseSaveAndParse(data: seq<Byte>, unicode: bool) returns (d: CDialogTemplate, e: CDialogTemplate)
    requires ReadTemplate(data).Ok? && SizesAgree(ReadTemplate(data).value)
    ensures d.View() == ReadTemplate(data).value && e.View() == d.View().(items := Renamed(unicode, d.items))
  {
    hide ReadTemplate, CStrings, WellFormed, SizesAgree;
    d := new CDialogTemplate(data, unicode);
    ParsedIsWellFormed(data);
    e := SaveAndParse(d);
  }

  /** `ADD_FONT`: a dialog of the executable gets the font of the script. Who reads it finds the dialog with that
      font; a standard dialog does not keep the character set. */
  method AddFont(data: seq<Byte>, unicode: bool, faceName: seq<Word>, fontSize: Word) returns (dlg: array<Byte>)
    requires ReadTemplate(data).Ok? && 0 !in faceName && faceName != [] && faceName[0] != 0xFFFF
    requires SizesAgree(WithFont(ReadTemplate(data).value, faceName, fontSize))
    ensures var t, r := ReadTemplate(data).value, ReadTemplate(dlg[..]);
            var want := WithFont(t, faceName, fontSize).(items := Renamed(unicode, t.items));
            r.Ok? && r.value == WithoutCharset(want) && (r.value == want <==> t.extended)
  {
    hide ReadTemplate, Image, CStrings, WellFormed, SizesAgree, FontStyle;
    var td := new CDialogTemplate(data, unicode);
    ghost var t := td.View();
    td.SetFont(faceName, fontSize);
    var size;
    dlg, size := td.Save();
    ParsedIsWellFormed(data);
    SavedIsAt(dlg[..], unicode, td.View());
    FontBackAgain(dlg[..], unicode, t, faceName, fontSize);
  }
}
