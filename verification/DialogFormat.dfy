/**
 The byte format of dialog templates: what a saved template looks like, and what is read
 from given bytes. Words are little-endian; coordinates are kept as 16-bit patterns.
 */
module DialogFormat {
  import opened Bytes

  /** A text, an ordinal, or nothing; texts are C strings. */
  datatype VarLen = Nothing | Id(id: Word) | Text(text: seq<Word>)

  datatype Item = Item(helpId: DWord, exStyle: DWord, style: DWord, x: Word, y: Word, width: Word, height: Word,
                       id: Word, className: VarLen, title: VarLen, creationData: seq<Byte>)

  datatype Font = Font(size: Word, weight: Word, italic: Byte, charset: Byte, face: VarLen)

  datatype Template = Template(extended: bool, helpId: DWord, exStyle: DWord, style: DWord,
                               x: Word, y: Word, width: Word, height: Word,
                               menu: VarLen, className: VarLen, title: VarLen, font: Font, items: seq<Item>)

  const NO_FONT := Font(0, 0, 0, 0, Nothing)

  predicate HasFont(style: DWord) {
    style / 0x40 % 2 == 1
  }

  const EXTENDED_DIALOG := 0xFFFF_0001

  /* ---------- words ---------- */

  function Words(ws: seq<Word>): (b: seq<Byte>)
    ensures |b| == 2 * |ws|
  {
    seq(2 * |ws|, i requires 0 <= i < 2 * |ws| => if i % 2 == 0 then ws[i / 2] % 256 else ws[i / 2] / 256)
  }

  function Low(d: DWord): Word {
    d % 0x1_0000
  }

  function High(d: DWord): Word {
    d / 0x1_0000
  }

  /** `bytes` lie at `pos`. */
  predicate At(data: seq<Byte>, pos: nat, bytes: seq<Byte>) {
    pos + |bytes| <= |data| && data[pos..pos + |bytes|] == bytes
  }

  lemma AtSplit(data: seq<Byte>, pos: nat, a: seq<Byte>, b: seq<Byte>)
    ensures At(data, pos, a + b) <==> At(data, pos, a) && At(data, pos + |a|, b)
  {
    if pos + |a + b| <= |data| {
      var all := data[pos..pos + |a + b|];
      assert all[..|a|] == data[pos..pos + |a|] && all[|a|..] == data[pos + |a|..pos + |a| + |b|];
      assert all == all[..|a|] + all[|a|..];
      assert (a + b)[..|a|] == a && (a + b)[|a|..] == b;
    }
  }

  lemma WordsConcat(a: seq<Word>, b: seq<Word>)
    ensures Words(a + b) == Words(a) + Words(b)
  {
  }

  lemma WordAt(data: seq<Byte>, pos: nat, ws: seq<Word>, i: nat)
    requires At(data, pos, Words(ws)) && i < |ws|
    ensures pos + 2 * i + 2 <= |data| && Get16(data, pos + 2 * i) == ws[i]
  {
    var b := data[pos..pos + 2 * |ws|];
    assert b[2 * i] == data[pos + 2 * i] && b[2 * i + 1] == data[pos + 2 * i + 1];
    assert Words(ws)[2 * i] == ws[i] % 256 && Words(ws)[2 * i + 1] == ws[i] / 256;
  }

  /* ---------- writing ---------- */

  function VarLenWords(v: VarLen): seq<Word> {
    match v
    case Nothing => [0]
    case Id(id) => [0xFFFF, id]
    case Text(text) => text + [0]
  }

  function HeaderWords(t: Template): seq<Word> {
    var count := |t.items| % 0x1_0000;
    if t.extended then
      [1, 0xFFFF, Low(t.helpId), High(t.helpId), Low(t.exStyle), High(t.exStyle), Low(t.style), High(t.style),
       count, t.x, t.y, t.width, t.height]
    else
      [Low(t.style), High(t.style), Low(t.exStyle), High(t.exStyle), count, t.x, t.y, t.width, t.height]
  }

  function FontWords(t: Template): seq<Word> {
    if !HasFont(t.style) then []
    else
      [t.font.size] + (if t.extended then [t.font.weight, t.font.italic + 256 * t.font.charset] else [])
      + VarLenWords(t.font.face)
  }

  function FrontWords(t: Template): seq<Word> {
    HeaderWords(t) + VarLenWords(t.menu) + VarLenWords(t.className) + VarLenWords(t.title) + FontWords(t)
  }

  function ItemWords(extended: bool, item: Item): seq<Word> {
    if extended then
      [Low(item.helpId), High(item.helpId), Low(item.exStyle), High(item.exStyle), Low(item.style), High(item.style),
       item.x, item.y, item.width, item.height, item.id, 0]
    else
      [Low(item.style), High(item.style), Low(item.exStyle), High(item.exStyle),
       item.x, item.y, item.width, item.height, item.id]
  }

  /** The size word of creation data counts itself, in 16 bits. */
  function DataWord(n: nat): Word {
    if n % 0x1_0000 == 0 then 0 else (n + 2) % 0x1_0000
  }

  function ItemBytes(extended: bool, item: Item): seq<Byte> {
    Words(ItemWords(extended, item) + VarLenWords(item.className) + VarLenWords(item.title)
          + [DataWord(|item.creationData|)]) + item.creationData
  }

  function LowerWord(w: Word): Word {
    if 0x41 <= w <= 0x5A then w + 32 else w
  }

  predicate SameNoCase(a: seq<Word>, b: seq<Word>) {
    |a| == |b| && forall i :: 0 <= i < |a| ==> LowerWord(a[i]) == LowerWord(b[i])
  }

  const RICH_EDIT_20: seq<Word> := [0x52, 0x69, 0x63, 0x68, 0x45, 0x64, 0x69, 0x74, 0x32, 0x30]
  const RICH_EDIT_20A: seq<Word> := RICH_EDIT_20 + [0x41]
  const RICH_EDIT_20W: seq<Word> := RICH_EDIT_20 + [0x57]

  /** Rich edit controls are saved as the class that fits the target. */
  function TargetClass(unicode: bool, name: VarLen): VarLen {
    if name.Text? && unicode && SameNoCase(name.text, RICH_EDIT_20A) then Text(RICH_EDIT_20W)
    else if name.Text? && !unicode && SameNoCase(name.text, RICH_EDIT_20W) then Text(RICH_EDIT_20A)
    else name
  }

  function ForTarget(unicode: bool, item: Item): Item {
    item.(className := TargetClass(unicode, item.className))
  }

  function Renamed(unicode: bool, items: seq<Item>): (r: seq<Item>)
    ensures |r| == |items|
  {
    seq(|items|, i requires 0 <= i < |items| => ForTarget(unicode, items[i]))
  }

  function Padding(n: nat): seq<Byte> {
    if n % 4 != 0 then [0, 0] else []
  }

  /** A saved template up to and including its first `k` items. */
  function Image(unicode: bool, t: Template, k: nat): seq<Byte>
    requires k <= |t.items|
  {
    if k == 0 then Words(FrontWords(t))
    else
      var before := Image(unicode, t, k - 1);
      before + Padding(|before|) + ItemBytes(t.extended, ForTarget(unicode, t.items[k - 1]))
  }

  lemma {:induction false} ImageStarts(unicode: bool, t: Template, j: nat, k: nat, data: seq<Byte>)
    requires j <= k <= |t.items| && At(data, 0, Image(unicode, t, k))
    ensures At(data, 0, Image(unicode, t, j))
  {
    hide At, ItemBytes, ForTarget, Words, FrontWords;
    if j < k {
      var before := Image(unicode, t, k - 1);
      var bytes := ItemBytes(t.extended, ForTarget(unicode, t.items[k - 1]));
      assert before + Padding(|before|) + bytes == before + (Padding(|before|) + bytes);
      AtSplit(data, 0, before, Padding(|before|) + bytes);
      ImageStarts(unicode, t, j, k - 1, data);
    }
  }

  /* ---------- reading ---------- */

  datatype Read<+T> = Fail | Ok(value: T, next: nat)

  function ReadText(data: seq<Byte>, pos: nat): Read<seq<Word>>
    decreases |data| - pos
  {
    if pos + 2 > |data| then Fail
    else if Get16(data, pos) == 0 then Ok([], pos + 2)
    else
      match ReadText(data, pos + 2)
      case Fail => Fail
      case Ok(rest, next) => Ok([Get16(data, pos)] + rest, next)
  }

  /** An array of varying length; an ordinal of zero cannot be told from nothing. */
  function ReadVarLen(data: seq<Byte>, pos: nat): Read<VarLen> {
    if pos + 2 > |data| then Fail
    else if Get16(data, pos) == 0 then Ok(Nothing, pos + 2)
    else if Get16(data, pos) == 0xFFFF then
      if pos + 4 > |data| then Fail
      else Ok(if Get16(data, pos + 2) == 0 then Nothing else Id(Get16(data, pos + 2)), pos + 4)
    else
      match ReadText(data, pos)
      case Fail => Fail
      case Ok(text, next) => Ok(Text(text), next)
  }

  /** The fields before the menu, and the number of items. */
  function ReadHeader(data: seq<Byte>): Read<(Template, nat)> {
    if |data| < 18 then Fail
    else if Get32(data, 0) == EXTENDED_DIALOG then
      if |data| < 26 then Fail
      else Ok((Template(true, Get32(data, 4), Get32(data, 8), Get32(data, 12), Get16(data, 18), Get16(data, 20),
                        Get16(data, 22), Get16(data, 24), Nothing, Nothing, Nothing, NO_FONT, []),
               Get16(data, 16)), 26)
    else Ok((Template(false, 0, Get32(data, 4), Get32(data, 0), Get16(data, 10), Get16(data, 12),
                      Get16(data, 14), Get16(data, 16), Nothing, Nothing, Nothing, NO_FONT, []),
             Get16(data, 8)), 18)
  }

  function ReadFont(data: seq<Byte>, extended: bool, style: DWord, pos: nat): Read<Font> {
    var fixed := if extended then 6 else 2;
    if !HasFont(style) then Ok(NO_FONT, pos)
    else if pos + fixed > |data| then Fail
    else
      match ReadVarLen(data, pos + fixed)
      case Fail => Fail
      case Ok(face, next) =>
        if extended then Ok(Font(Get16(data, pos), Get16(data, pos + 2), data[pos + 4], data[pos + 5], face), next)
        else Ok(Font(Get16(data, pos), 0, 0, 0, face), next)
  }

  function ReadFront(data: seq<Byte>): Read<(Template, nat)> {
    match ReadHeader(data)
    case Fail => Fail
    case Ok(h, afterHeader) =>
      match ReadVarLen(data, afterHeader)
      case Fail => Fail
      case Ok(menu, afterMenu) =>
        match ReadVarLen(data, afterMenu)
        case Fail => Fail
        case Ok(className, afterClass) =>
          match ReadVarLen(data, afterClass)
          case Fail => Fail
          case Ok(title, afterTitle) =>
            match ReadFont(data, h.0.extended, h.0.style, afterTitle)
            case Fail => Fail
            case Ok(font, next) =>
              Ok((h.0.(menu := menu, className := className, title := title, font := font), h.1), next)
  }

  function ReadItemHeader(data: seq<Byte>, extended: bool, pos: nat): Read<Item> {
    if extended then
      if pos + 24 > |data| then Fail
      else Ok(Item(Get32(data, pos), Get32(data, pos + 4), Get32(data, pos + 8), Get16(data, pos + 12),
                   Get16(data, pos + 14), Get16(data, pos + 16), Get16(data, pos + 18), Get16(data, pos + 20),
                   Nothing, Nothing, []), pos + 24)
    else if pos + 18 > |data| then Fail
    else Ok(Item(0, Get32(data, pos + 4), Get32(data, pos), Get16(data, pos + 8), Get16(data, pos + 10),
                 Get16(data, pos + 12), Get16(data, pos + 14), Get16(data, pos + 16), Nothing, Nothing, []), pos + 18)
  }

  /** The size of the data that follows a size word; the subtraction is in 16 bits. */
  function DataSize(w: Word): nat {
    if w == 0 then 0 else (w + 0x1_0000 - 2) % 0x1_0000
  }

  function ReadData(data: seq<Byte>, pos: nat): Read<seq<Byte>> {
    if pos + 2 > |data| then Fail
    else
      var n := DataSize(Get16(data, pos));
      if pos + 2 + n > |data| then Fail else Ok(data[pos + 2..pos + 2 + n], pos + 2 + n)
  }

  function ReadItem(data: seq<Byte>, extended: bool, pos: nat): Read<Item> {
    match ReadItemHeader(data, extended, pos)
    case Fail => Fail
    case Ok(h, afterHeader) =>
      match ReadVarLen(data, afterHeader)
      case Fail => Fail
      case Ok(className, afterClass) =>
        match ReadVarLen(data, afterClass)
        case Fail => Fail
        case Ok(title, afterTitle) =>
          match ReadData(data, afterTitle)
          case Fail => Fail
          case Ok(d, next) => Ok(h.(className := className, title := title, creationData := d), next)
  }

  function Skip(pos: nat): nat {
    if pos % 4 != 0 then pos + 2 else pos
  }

  /** The first `k` items after `start`. */
  function ReadItems(data: seq<Byte>, extended: bool, start: nat, k: nat): Read<seq<Item>> {
    if k == 0 then Ok([], start)
    else
      match ReadItems(data, extended, start, k - 1)
      case Fail => Fail
      case Ok(items, pos) =>
        match ReadItem(data, extended, Skip(pos))
        case Fail => Fail
        case Ok(item, next) => Ok(items + [item], next)
  }

  /** The template in the given bytes, unless they end too early. */
  function ReadTemplate(data: seq<Byte>): Read<Template> {
    match ReadFront(data)
    case Fail => Fail
    case Ok(front, start) =>
      match ReadItems(data, front.0.extended, start, front.1)
      case Fail => Fail
      case Ok(items, next) => Ok(front.0.(items := items), next)
  }
}
