/**
 Where each field of a saved dialog template lies, in numbers: the structures DLGTEMPLATE, DLGTEMPLATEEX,
 DLGITEMTEMPLATE and DLGITEMTEMPLATEEX of the Windows API.
 */
module DialogLayout {
  import opened Bytes
  import opened DialogFormat
  import opened DialogRoundTrip

  /* ---------- parts ---------- */

  function ArraySize(v: VarLen): nat {
    match v
    case Nothing => 2
    case Id(_) => 4
    case Text(text) => 2 * |text| + 2
  }

  /** An array of varying length: a zero word; 0xFFFF and an ordinal; or a text and a zero word. */
  ghost predicate ArrayAt(data: seq<Byte>, pos: nat, v: VarLen) {
    && pos + ArraySize(v) <= |data|
    && match v
       case Nothing => Get16(data, pos) == 0
       case Id(id) => Get16(data, pos) == 0xFFFF && Get16(data, pos + 2) == id
       case Text(text) =>
         && (forall i :: 0 <= i < |text| ==> Get16(data, pos + 2 * i) == text[i])
         && Get16(data, pos + 2 * |text|) == 0
  }

  ghost predicate HeaderAt(data: seq<Byte>, t: Template) {
    if t.extended then
      && |data| >= 26 && Get16(data, 0) == 1 && Get16(data, 2) == 0xFFFF && Get32(data, 4) == t.helpId
      && Get32(data, 8) == t.exStyle && Get32(data, 12) == t.style && Get16(data, 16) == |t.items| % 0x1_0000
      && Get16(data, 18) == t.x && Get16(data, 20) == t.y && Get16(data, 22) == t.width && Get16(data, 24) == t.height
    else
      && |data| >= 18 && Get32(data, 0) == t.style && Get32(data, 4) == t.exStyle
      && Get16(data, 8) == |t.items| % 0x1_0000
      && Get16(data, 10) == t.x && Get16(data, 12) == t.y && Get16(data, 14) == t.width && Get16(data, 16) == t.height
  }

  /** The font, only with bit 0x40 of the style; weight, italic and character set only in extended dialogs. */
  ghost predicate FontAt(data: seq<Byte>, pos: nat, t: Template) {
    t.style / 0x40 % 2 == 1 ==>
      && pos + 2 <= |data| && Get16(data, pos) == t.font.size
      && if t.extended then
           && pos + 6 <= |data| && Get16(data, pos + 2) == t.font.weight
           && data[pos + 4] == t.font.italic && data[pos + 5] == t.font.charset
           && ArrayAt(data, pos + 6, t.font.face)
         else ArrayAt(data, pos + 2, t.font.face)
  }

  function HeaderSize(t: Template): nat {
    if t.extended then 26 else 18
  }

  function FontSize(t: Template): nat {
    if t.style / 0x40 % 2 == 1 then (if t.extended then 6 else 2) + ArraySize(t.font.face) else 0
  }

  /** Header, menu, class, title and font follow each other. */
  ghost predicate FrontAt(data: seq<Byte>, t: Template) {
    var menu := HeaderSize(t);
    var className := menu + ArraySize(t.menu);
    var title := className + ArraySize(t.className);
    && HeaderAt(data, t) && ArrayAt(data, menu, t.menu) && ArrayAt(data, className, t.className)
    && ArrayAt(data, title, t.title) && FontAt(data, title + ArraySize(t.title), t)
  }

  function ItemHeaderSize(extended: bool): nat {
    if extended then 24 else 18
  }

  ghost predicate ItemHeaderAt(data: seq<Byte>, pos: nat, extended: bool, item: Item) {
    if extended then
      && pos + 24 <= |data| && Get32(data, pos) == item.helpId && Get32(data, pos + 4) == item.exStyle
      && Get32(data, pos + 8) == item.style && Get16(data, pos + 12) == item.x && Get16(data, pos + 14) == item.y
      && Get16(data, pos + 16) == item.width && Get16(data, pos + 18) == item.height
      && Get32(data, pos + 20) == item.id
    else
      && pos + 18 <= |data| && Get32(data, pos) == item.style && Get32(data, pos + 4) == item.exStyle
      && Get16(data, pos + 8) == item.x && Get16(data, pos + 10) == item.y && Get16(data, pos + 12) == item.width
      && Get16(data, pos + 14) == item.height && Get16(data, pos + 16) == item.id
  }

  /** An item: header, class, title, and creation data behind a word for its size, which counts itself unless there
      is no data. */
  ghost predicate ItemAt(data: seq<Byte>, pos: nat, extended: bool, item: Item) {
    var className := pos + ItemHeaderSize(extended);
    var title := className + ArraySize(item.className);
    var size := title + ArraySize(item.title);
    && ItemHeaderAt(data, pos, extended, item) && ArrayAt(data, className, item.className)
    && ArrayAt(data, title, item.title) && size + 2 + |item.creationData| <= |data|
    && (|item.creationData| < 0xFFFE ==>
          Get16(data, size) == if item.creationData == [] then 0 else |item.creationData| + 2)
    && data[size + 2..size + 2 + |item.creationData|] == item.creationData
  }

  /* ---------- the bytes that are written ---------- */

  lemma ArrayWritten(data: seq<Byte>, pos: nat, v: VarLen)
    requires At(data, pos, Words(VarLenWords(v)))
    ensures ArrayAt(data, pos, v) && |VarLenWords(v)| * 2 == ArraySize(v)
  {
    hide Words, At, Get16;
    var ws := VarLenWords(v);
    forall i | 0 <= i < |ws|
      ensures pos + 2 * i + 2 <= |data| && Get16(data, pos + 2 * i) == ws[i]
    {
      WordAt(data, pos, ws, i);
    }
    assert Get16(data, pos + 2 * 0) == ws[0];
    if v.Id? {
      assert Get16(data, pos + 2 * 1) == ws[1];
    } else if v.Text? {
      assert Get16(data, pos + 2 * |v.text|) == ws[|v.text|];
    }
  }

  lemma DwordWritten(data: seq<Byte>, pos: nat, d: DWord)
    requires pos + 4 <= |data| && Get16(data, pos) == Low(d) && Get16(data, pos + 2) == High(d)
    ensures Get32(data, pos) == d
  {
    hide Get16;
  }

  lemma HeaderWritten(data: seq<Byte>, t: Template)
    requires At(data, 0, Words(HeaderWords(t)))
    ensures HeaderAt(data, t) && 2 * |HeaderWords(t)| == HeaderSize(t)
  {
    hide Words, At, Get16, Get32, Low, High;
    var ws := HeaderWords(t);
    forall i | 0 <= i < |ws|
      ensures 2 * i + 2 <= |data| && Get16(data, 2 * i) == ws[i]
    {
      WordAt(data, 0, ws, i);
    }
    assert Get16(data, 2 * 0) == ws[0] && Get16(data, 2 * 1) == ws[1] && Get16(data, 2 * 2) == ws[2];
    assert Get16(data, 2 * 3) == ws[3] && Get16(data, 2 * 4) == ws[4] && Get16(data, 2 * 5) == ws[5];
    assert Get16(data, 2 * 6) == ws[6] && Get16(data, 2 * 7) == ws[7] && Get16(data, 2 * 8) == ws[8];
    if t.extended {
      assert Get16(data, 2 * 9) == ws[9] && Get16(data, 2 * 10) == ws[10];
      assert Get16(data, 2 * 11) == ws[11] && Get16(data, 2 * 12) == ws[12];
      DwordWritten(data, 4, t.helpId);
      DwordWritten(data, 8, t.exStyle);
      DwordWritten(data, 12, t.style);
    } else {
      DwordWritten(data, 0, t.style);
      DwordWritten(data, 4, t.exStyle);
    }
  }

  lemma BytesOfWord(data: seq<Byte>, pos: nat, low: Byte, high: Byte)
    requires pos + 2 <= |data| && Get16(data, pos) == low + 256 * high
    ensures data[pos] == low && data[pos + 1] == high
  {
  }

  lemma FontWritten(data: seq<Byte>, pos: nat, t: Template)
    requires At(data, pos, Words(FontWords(t)))
    ensures FontAt(data, pos, t) && 2 * |FontWords(t)| == FontSize(t)
  {
    hide Words, At, Get16;
    if HasFont(t.style) {
      var fixed := [t.font.size] + if t.extended then [t.font.weight, t.font.italic + 256 * t.font.charset] else [];
      assert FontWords(t) == fixed + VarLenWords(t.font.face);
      AtWords(data, pos, fixed, VarLenWords(t.font.face));
      ArrayWritten(data, pos + 2 * |fixed|, t.font.face);
      WordAt(data, pos, fixed, 0);
      if t.extended {
        WordAt(data, pos, fixed, 1);
        WordAt(data, pos, fixed, 2);
        BytesOfWord(data, pos + 4, t.font.italic, t.font.charset);
      }
    }
  }

  lemma FrontWritten(data: seq<Byte>, t: Template)
    requires At(data, 0, Words(FrontWords(t)))
    ensures FrontAt(data, t)
    ensures 2 * |FrontWords(t)| ==
              HeaderSize(t) + ArraySize(t.menu) + ArraySize(t.className) + ArraySize(t.title) + FontSize(t)
  {
    hide Words, At, HeaderWords, VarLenWords, FontWords, HeaderAt, ArrayAt, FontAt;
    var h, menu, name, title := HeaderWords(t), VarLenWords(t.menu), VarLenWords(t.className), VarLenWords(t.title);
    AtWords(data, 0, h + menu + name + title, FontWords(t));
    AtWords(data, 0, h + menu + name, title);
    AtWords(data, 0, h + menu, name);
    AtWords(data, 0, h, menu);
    HeaderWritten(data, t);
    ArrayWritten(data, 2 * |h|, t.menu);
    ArrayWritten(data, 2 * |h| + 2 * |menu|, t.className);
    ArrayWritten(data, 2 * |h| + 2 * |menu| + 2 * |name|, t.title);
    FontWritten(data, 2 * |h| + 2 * |menu| + 2 * |name| + 2 * |title|, t);
  }

  lemma ItemHeaderWritten(data: seq<Byte>, pos: nat, extended: bool, item: Item)
    requires At(data, pos, Words(ItemWords(extended, item)))
    ensures ItemHeaderAt(data, pos, extended, item) && 2 * |ItemWords(extended, item)| == ItemHeaderSize(extended)
  {
    hide Words, At, Get16, Get32, Low, High;
    var ws := ItemWords(extended, item);
    forall i | 0 <= i < |ws|
      ensures pos + 2 * i + 2 <= |data| && Get16(data, pos + 2 * i) == ws[i]
    {
      WordAt(data, pos, ws, i);
    }
    assert Get16(data, pos + 2 * 0) == ws[0] && Get16(data, pos + 2 * 1) == ws[1] && Get16(data, pos + 2 * 2) == ws[2];
    assert Get16(data, pos + 2 * 3) == ws[3] && Get16(data, pos + 2 * 4) == ws[4] && Get16(data, pos + 2 * 5) == ws[5];
    assert Get16(data, pos + 2 * 6) == ws[6] && Get16(data, pos + 2 * 7) == ws[7] && Get16(data, pos + 2 * 8) == ws[8];
    if extended {
      assert Get16(data, pos + 2 * 9) == ws[9] && Get16(data, pos + 2 * 10) == ws[10];
      assert Get16(data, pos + 2 * 11) == ws[11];
      DwordWritten(data, pos, item.helpId);
      DwordWritten(data, pos + 4, item.exStyle);
      DwordWritten(data, pos + 8, item.style);
      SmallDword(item.id);
      DwordWritten(data, pos + 20, item.id);
    } else {
      DwordWritten(data, pos, item.style);
      DwordWritten(data, pos + 4, item.exStyle);
    }
  }

  lemma SmallDword(w: Word)
    ensures Low(w) == w && High(w) == 0
  {
  }

  lemma ItemWritten(data: seq<Byte>, pos: nat, extended: bool, item: Item)
    requires At(data, pos, ItemBytes(extended, item))
    ensures ItemAt(data, pos, extended, item)
    ensures |ItemBytes(extended, item)| == ItemHeaderSize(extended) + ArraySize(item.className)
                                           + ArraySize(item.title) + 2 + |item.creationData|
  {
    hide Words, At, ItemWords, VarLenWords, ItemHeaderAt, ArrayAt, DataWord;
    var h, name, title, size := ItemWords(extended, item), VarLenWords(item.className), VarLenWords(item.title),
                                [DataWord(|item.creationData|)];
    AtSplit(data, pos, Words(h + name + title + size), item.creationData);
    AtWords(data, pos, h + name + title, size);
    AtWords(data, pos, h + name, title);
    AtWords(data, pos, h, name);
    ItemHeaderWritten(data, pos, extended, item);
    ArrayWritten(data, pos + 2 * |h|, item.className);
    ArrayWritten(data, pos + 2 * |h| + 2 * |name|, item.title);
    DataWritten(data, pos + 2 * |h| + 2 * |name| + 2 * |title|, item.creationData);
  }

  lemma DataWritten(data: seq<Byte>, pos: nat, d: seq<Byte>)
    requires At(data, pos, Words([DataWord(|d|)])) && At(data, pos + 2, d)
    ensures pos + 2 + |d| <= |data| && data[pos + 2..pos + 2 + |d|] == d
    ensures |d| < 0xFFFE ==> Get16(data, pos) == if d == [] then 0 else |d| + 2
  {
    hide Words;
    WordAt(data, pos, [DataWord(|d|)], 0);
  }

  /** "RichEdit20" and a letter, in any case. */
  ghost predicate RichEdit(v: VarLen, letter: Word) {
    v.Text? && |v.text| == 11 &&
    var name := [0x72, 0x69, 0x63, 0x68, 0x65, 0x64, 0x69, 0x74, 0x32, 0x30, letter + 32];
    forall i :: 0 <= i < 11 ==>
      v.text[i] == name[i] || (0x61 <= name[i] <= 0x7A && v.text[i] == name[i] - 32)
  }

  /** Rich edit controls change their class on the other target, and nothing else does. */
  lemma ClassForTarget(unicode: bool, item: Item)
    ensures var r := ForTarget(unicode, item);
            && r == item.(className := r.className)
            && (if unicode && RichEdit(item.className, 0x41) then
                  r.className == Text([0x52, 0x69, 0x63, 0x68, 0x45, 0x64, 0x69, 0x74, 0x32, 0x30, 0x57])
                else if !unicode && RichEdit(item.className, 0x57) then
                  r.className == Text([0x52, 0x69, 0x63, 0x68, 0x45, 0x64, 0x69, 0x74, 0x32, 0x30, 0x41])
                else r == item)
  {
    RichEditIs(item.className);
  }

  lemma RichEditIs(v: VarLen)
    ensures RichEdit(v, 0x41) <==> v.Text? && SameNoCase(v.text, RICH_EDIT_20A)
    ensures RichEdit(v, 0x57) <==> v.Text? && SameNoCase(v.text, RICH_EDIT_20W)
  {
    RichEditLetter(v, 0x41, RICH_EDIT_20A);
    RichEditLetter(v, 0x57, RICH_EDIT_20W);
  }

  lemma RichEditLetter(v: VarLen, letter: Word, name: seq<Word>)
    requires 0x41 <= letter <= 0x5A
    requires name == [0x52, 0x69, 0x63, 0x68, 0x45, 0x64, 0x69, 0x74, 0x32, 0x30, letter]
    ensures RichEdit(v, letter) <==> v.Text? && SameNoCase(v.text, name)
  {
    if v.Text? && |v.text| == 11 {
      var lower := [0x72, 0x69, 0x63, 0x68, 0x65, 0x64, 0x69, 0x74, 0x32, 0x30, letter + 32];
      forall i | 0 <= i < 11
        ensures LowerWord(v.text[i]) == LowerWord(name[i]) <==>
          v.text[i] == lower[i] || (0x61 <= lower[i] <= 0x7A && v.text[i] == lower[i] - 32)
      {
      }
    }
  }

  /** Every field of a saved template, at its place: the front, and item `k` at the next multiple of four where the
      items before it have an even size, as the class that fits the target. */
  lemma SavedLayout(data: seq<Byte>, unicode: bool, t: Template, k: nat)
    requires At(data, 0, Image(unicode, t, |t.items|)) && k < |t.items|
    ensures FrontAt(data, t)
    ensures var end := |Image(unicode, t, k)|;
            var pos := if end % 4 == 0 then end else end + 2;
            ItemAt(data, pos, t.extended, ForTarget(unicode, t.items[k]))
  {
    hide Words, At, FrontWords, FrontAt, ItemAt, ItemBytes, ForTarget, Image;
    ImageStarts(unicode, t, 0, |t.items|, data);
    NoItems(unicode, t);
    FrontWritten(data, t);
    ImageStarts(unicode, t, k + 1, |t.items|, data);
    var before, item := Image(unicode, t, k), ForTarget(unicode, t.items[k]);
    ImageNext(unicode, t, k);
    AtSplit(data, 0, before + Padding(|before|), ItemBytes(t.extended, item));
    ItemWritten(data, |before + Padding(|before|)|, t.extended, item);
  }

  lemma ImageNext(unicode: bool, t: Template, k: nat)
    requires k < |t.items|
    ensures var before := Image(unicode, t, k);
            Image(unicode, t, k + 1) ==
              before + Padding(|before|) + ItemBytes(t.extended, ForTarget(unicode, t.items[k]))
  {
  }
}
