/**
 Reading back a saved dialog template: which templates survive, exactly.
 */
module DialogRoundTrip {
  import opened Bytes
  import opened DialogFormat

  predicate CString(v: VarLen) {
    v.Text? ==> 0 !in v.text
  }

  /** What can be told apart from everything else when it is written down. */
  predicate Storable(v: VarLen) {
    match v
    case Nothing => true
    case Id(id) => id != 0
    case Text(text) => text != [] && text[0] != 0xFFFF
  }

  predicate HeaderOk(t: Template) {
    && |t.items| < 0x1_0000
    && (t.extended || (t.helpId == 0 && t.style != EXTENDED_DIALOG))
  }

  predicate FontOk(t: Template) {
    if HasFont(t.style) then
      Storable(t.font.face) && (t.extended || (t.font.weight == 0 && t.font.italic == 0 && t.font.charset == 0))
    else t.font == NO_FONT
  }

  predicate FrontOk(t: Template) {
    HeaderOk(t) && Storable(t.menu) && Storable(t.className) && Storable(t.title) && FontOk(t)
  }

  predicate ItemOk(extended: bool, item: Item) {
    && (extended || item.helpId == 0) && Storable(item.className) && Storable(item.title)
    && |item.creationData| < 0x1_0000 && |item.creationData| != 0xFFFE
  }

  predicate CStrings(t: Template) {
    && CString(t.menu) && CString(t.className) && CString(t.title) && CString(t.font.face)
    && forall i :: 0 <= i < |t.items| ==> CString(t.items[i].className) && CString(t.items[i].title)
  }

  /** The templates that come back from being saved. */
  predicate WellFormed(t: Template) {
    FrontOk(t) && ItemsOk(t, |t.items|)
  }

  lemma AtWords(data: seq<Byte>, pos: nat, a: seq<Word>, b: seq<Word>)
    ensures At(data, pos, Words(a + b)) <==> At(data, pos, Words(a)) && At(data, pos + 2 * |a|, Words(b))
  {
    hide At, Words;
    WordsConcat(a, b);
    AtSplit(data, pos, Words(a), Words(b));
  }

  lemma {:induction false} TextBack(data: seq<Byte>, pos: nat, text: seq<Word>)
    requires 0 !in text && At(data, pos, Words(text + [0]))
    ensures ReadText(data, pos) == Ok(text, pos + 2 * |text| + 2)
    decreases |text|
  {
    hide Words, At;
    WordAt(data, pos, text + [0], 0);
    if text != [] {
      assert text + [0] == [text[0]] + (text[1..] + [0]);
      AtWords(data, pos, [text[0]], text[1..] + [0]);
      TextBack(data, pos + 2, text[1..]);
      assert text == [text[0]] + text[1..];
    }
  }

  lemma VarLenBack(data: seq<Byte>, pos: nat, v: VarLen)
    requires CString(v) && At(data, pos, Words(VarLenWords(v)))
    ensures var r := ReadVarLen(data, pos);
            (r.Ok? && r.value == v <==> Storable(v)) && (Storable(v) ==> r.next == pos + 2 * |VarLenWords(v)|)
  {
    hide Words, At;
    var ws := VarLenWords(v);
    WordAt(data, pos, ws, 0);
    if |ws| > 1 {
      WordAt(data, pos, ws, 1);
    }
    if v.Text? {
      TextBack(data, pos, v.text);
    }
  }

  /** A template as it is before its arrays and items are read. */
  function Bare(t: Template): Template {
    t.(menu := Nothing, className := Nothing, title := Nothing, font := NO_FONT, items := [])
  }

  lemma HeaderBack(data: seq<Byte>, t: Template)
    requires At(data, 0, Words(HeaderWords(t)))
    ensures var r := ReadHeader(data);
            (r.Ok? && r.value == (Bare(t), |t.items|) <==> HeaderOk(t))
            && (HeaderOk(t) ==> r.next == 2 * |HeaderWords(t)|)
  {
    hide Words, At;
    var ws := HeaderWords(t);
    forall i | 0 <= i < |ws| ensures 2 * i + 2 <= |data| && Get16(data, 2 * i) == ws[i] {
      WordAt(data, 0, ws, i);
    }
    assert Get16(data, 2 * 0) == ws[0] && Get16(data, 2 * 1) == ws[1] && Get16(data, 2 * 2) == ws[2];
    assert Get16(data, 2 * 3) == ws[3] && Get16(data, 2 * 4) == ws[4] && Get16(data, 2 * 5) == ws[5];
    assert Get16(data, 2 * 6) == ws[6] && Get16(data, 2 * 7) == ws[7] && Get16(data, 2 * 8) == ws[8];
    if t.extended {
      assert Get16(data, 2 * 9) == ws[9] && Get16(data, 2 * 10) == ws[10];
      assert Get16(data, 2 * 11) == ws[11] && Get16(data, 2 * 12) == ws[12];
    }
  }

  lemma FontBack(data: seq<Byte>, t: Template, pos: nat)
    requires CString(t.font.face) && At(data, pos, Words(FontWords(t)))
    ensures var r := ReadFont(data, t.extended, t.style, pos);
            (r.Ok? && r.value == t.font <==> FontOk(t)) && (FontOk(t) ==> r.next == pos + 2 * |FontWords(t)|)
  {
    hide Words, At;
    if HasFont(t.style) {
      var fixed := [t.font.size] + if t.extended then [t.font.weight, t.font.italic + 256 * t.font.charset] else [];
      assert FontWords(t) == fixed + VarLenWords(t.font.face);
      AtWords(data, pos, fixed, VarLenWords(t.font.face));
      VarLenBack(data, pos + 2 * |fixed|, t.font.face);
      WordAt(data, pos, fixed, 0);
      if t.extended {
        WordAt(data, pos, fixed, 1);
        WordAt(data, pos, fixed, 2);
      }
    }
  }

  lemma HeaderIsBare(data: seq<Byte>)
    requires ReadHeader(data).Ok?
    ensures var h := ReadHeader(data).value.0; h == Bare(h)
  {
  }

  lemma ItemHeaderIsBare(data: seq<Byte>, extended: bool, pos: nat)
    requires ReadItemHeader(data, extended, pos).Ok?
    ensures var h := ReadItemHeader(data, extended, pos).value;
            h == h.(className := Nothing, title := Nothing, creationData := [])
  {
  }

  lemma FrontBack(data: seq<Byte>, t: Template)
    requires CStrings(t) && At(data, 0, Words(FrontWords(t)))
    ensures var r := ReadFront(data);
            (r.Ok? && r.value == (t.(items := []), |t.items|) <==> FrontOk(t))
            && (FrontOk(t) ==> r.next == 2 * |FrontWords(t)|)
  {
    hide Words, At, ReadHeader, ReadVarLen, ReadFont, HeaderOk, FontOk, HeaderWords, FontWords, Storable, VarLenWords;
    var h, menu, name, title := HeaderWords(t), VarLenWords(t.menu), VarLenWords(t.className), VarLenWords(t.title);
    var afterMenu, afterClass := 2 * (|h| + |menu|), 2 * (|h| + |menu| + |name|);
    AtWords(data, 0, h + menu + name + title, FontWords(t));
    AtWords(data, 0, h + menu + name, title);
    AtWords(data, 0, h + menu, name);
    AtWords(data, 0, h, menu);
    HeaderBack(data, t);
    if ReadHeader(data).Ok? {
      HeaderIsBare(data);
    }
    VarLenBack(data, 2 * |h|, t.menu);
    VarLenBack(data, afterMenu, t.className);
    VarLenBack(data, afterClass, t.title);
    FontBack(data, t, afterClass + 2 * |title|);
  }

  lemma ItemHeaderBack(data: seq<Byte>, extended: bool, pos: nat, item: Item)
    requires At(data, pos, Words(ItemWords(extended, item)))
    ensures var r := ReadItemHeader(data, extended, pos);
            r.Ok? && r.next == pos + 2 * |ItemWords(extended, item)|
            && (extended || item.helpId == 0 <==>
                r.value == item.(className := Nothing, title := Nothing, creationData := []))
  {
    hide Words, At;
    var ws := ItemWords(extended, item);
    forall i | 0 <= i < |ws| ensures pos + 2 * i + 2 <= |data| && Get16(data, pos + 2 * i) == ws[i] {
      WordAt(data, pos, ws, i);
    }
    assert Get16(data, pos + 2 * 0) == ws[0] && Get16(data, pos + 2 * 1) == ws[1] && Get16(data, pos + 2 * 2) == ws[2];
    assert Get16(data, pos + 2 * 3) == ws[3] && Get16(data, pos + 2 * 4) == ws[4] && Get16(data, pos + 2 * 5) == ws[5];
    assert Get16(data, pos + 2 * 6) == ws[6] && Get16(data, pos + 2 * 7) == ws[7] && Get16(data, pos + 2 * 8) == ws[8];
    if extended {
      assert Get16(data, pos + 2 * 9) == ws[9] && Get16(data, pos + 2 * 10) == ws[10]
          && Get16(data, pos + 2 * 11) == ws[11];
    }
  }

  lemma DataBack(data: seq<Byte>, pos: nat, d: seq<Byte>)
    requires At(data, pos, Words([DataWord(|d|)])) && At(data, pos + 2, d)
    ensures var r := ReadData(data, pos); var good := |d| < 0x1_0000 && |d| != 0xFFFE;
            (r.Ok? && r.value == d <==> good) && (good ==> r.next == pos + 2 + |d|)
  {
    WordAt(data, pos, [DataWord(|d|)], 0);
  }

  lemma ItemBack(data: seq<Byte>, extended: bool, pos: nat, item: Item)
    requires CString(item.className) && CString(item.title) && At(data, pos, ItemBytes(extended, item))
    ensures var r := ReadItem(data, extended, pos);
            (r.Ok? && r.value == item <==> ItemOk(extended, item))
            && (ItemOk(extended, item) ==> r.next == pos + |ItemBytes(extended, item)|)
  {
    hide Words, At, ReadItemHeader, ReadVarLen, ReadData, ItemWords, Storable, VarLenWords, DataWord;
    var h, name, title, size := ItemWords(extended, item), VarLenWords(item.className), VarLenWords(item.title),
                                [DataWord(|item.creationData|)];
    var afterHeader, afterClass := pos + 2 * |h|, pos + 2 * (|h| + |name|);
    AtSplit(data, pos, Words(h + name + title + size), item.creationData);
    AtWords(data, pos, h + name + title, size);
    AtWords(data, pos, h + name, title);
    AtWords(data, pos, h, name);
    ItemHeaderBack(data, extended, pos, item);
    ItemHeaderIsBare(data, extended, pos);
    VarLenBack(data, afterHeader, item.className);
    VarLenBack(data, afterClass, item.title);
    DataBack(data, afterClass + 2 * |title|, item.creationData);
  }

  /** Changing the class of a rich edit control keeps an item storable, and its size. */
  lemma TargetItem(unicode: bool, extended: bool, item: Item)
    requires CString(item.className) && CString(item.title)
    ensures var r := ForTarget(unicode, item);
            && CString(r.className) && |VarLenWords(r.className)| == |VarLenWords(item.className)|
            && (ItemOk(extended, r) <==> ItemOk(extended, item))
  {
    if item.className.Text? {
      assert LowerWord(RICH_EDIT_20A[0]) == LowerWord(RICH_EDIT_20W[0]) == 0x72;
      assert 0 !in RICH_EDIT_20A && 0 !in RICH_EDIT_20W;
    }
  }

  predicate ItemsOk(t: Template, k: nat)
    requires k <= |t.items|
  {
    forall i :: 0 <= i < k ==> ItemOk(t.extended, t.items[i])
  }

  lemma {:induction false} ItemsBack(data: seq<Byte>, unicode: bool, t: Template, k: nat)
    requires CStrings(t) && k <= |t.items| && At(data, 0, Image(unicode, t, k))
    ensures var r := ReadItems(data, t.extended, 2 * |FrontWords(t)|, k);
            (r.Ok? && r.value == Renamed(unicode, t.items)[..k] <==> ItemsOk(t, k))
            && (ItemsOk(t, k) ==> r.next == |Image(unicode, t, k)|)
  {
    hide Words, At, Image, ReadItem, ItemOk, FrontWords, ForTarget, CString;
    if k == 0 {
      NoItems(unicode, t);
    } else {
      var start, all, item := 2 * |FrontWords(t)|, Renamed(unicode, t.items), ForTarget(unicode, t.items[k - 1]);
      ImageStarts(unicode, t, k - 1, k, data);
      ItemsBack(data, unicode, t, k - 1);
      NextItemBack(data, unicode, t, k);
      assert all[..k] == all[..k - 1] + [item];
      var r := ReadItems(data, t.extended, start, k);
      if r.Ok? && r.value == all[..k] {
        assert r.value[..k - 1] == all[..k - 1] && r.value[k - 1] == item;
      }
    }
  }

  lemma NextItemBack(data: seq<Byte>, unicode: bool, t: Template, k: nat)
    requires CStrings(t) && 0 < k <= |t.items| && At(data, 0, Image(unicode, t, k))
    ensures var item := ForTarget(unicode, t.items[k - 1]);
            var r := ReadItem(data, t.extended, Skip(|Image(unicode, t, k - 1)|));
            (r.Ok? && r.value == item <==> ItemOk(t.extended, t.items[k - 1]))
            && (ItemOk(t.extended, t.items[k - 1]) ==> r.next == |Image(unicode, t, k)|)
  {
    hide Words, At, ReadItem, ItemOk, ItemBytes, FrontWords, ForTarget, CString;
    var before := Image(unicode, t, k - 1);
    var item := ForTarget(unicode, t.items[k - 1]);
    AtSplit(data, 0, before + Padding(|before|), ItemBytes(t.extended, item));
    TargetItem(unicode, t.extended, t.items[k - 1]);
    TargetTitle(unicode, t.items[k - 1]);
    ItemBack(data, t.extended, |before| + |Padding(|before|)|, item);
  }

  lemma TargetTitle(unicode: bool, item: Item)
    ensures ForTarget(unicode, item).title == item.title
  {
  }

  lemma {:induction false} ItemCount(data: seq<Byte>, extended: bool, start: nat, k: nat)
    requires ReadItems(data, extended, start, k).Ok?
    ensures |ReadItems(data, extended, start, k).value| == k
  {
    if k > 0 {
      ItemCount(data, extended, start, k - 1);
    }
  }

  /** A template comes back from being saved, with its rich edit classes fitted to the target, exactly if it
      is well formed; and then everything that was saved is read. */
  lemma RoundTrip(data: seq<Byte>, unicode: bool, t: Template)
    requires CStrings(t) && At(data, 0, Image(unicode, t, |t.items|))
    ensures var r := ReadTemplate(data);
            (r.Ok? && r.value == t.(items := Renamed(unicode, t.items)) <==> WellFormed(t))
            && (WellFormed(t) ==> r.next == |Image(unicode, t, |t.items|)|)
  {
    hide ReadFront, ReadItems, Image, At, FrontOk, ItemOk, FrontWords;
    ImageStarts(unicode, t, 0, |t.items|, data);
    NoItems(unicode, t);
    FrontBack(data, t);
    ItemsBack(data, unicode, t, |t.items|);
    var f := ReadFront(data);
    if f.Ok? && ReadItems(data, f.value.0.extended, f.next, f.value.1).Ok? {
      ItemCount(data, f.value.0.extended, f.next, f.value.1);
      NoItemsYet(data);
    }
    assert Renamed(unicode, t.items)[..|t.items|] == Renamed(unicode, t.items);
  }

  lemma NoItems(unicode: bool, t: Template)
    ensures Image(unicode, t, 0) == Words(FrontWords(t))
  {
  }

  lemma NoItemsYet(data: seq<Byte>)
    requires ReadFront(data).Ok?
    ensures ReadFront(data).value.0.items == []
  {
  }

  /* ---------- what is read ---------- */

  lemma {:induction false} TextRead(data: seq<Byte>, pos: nat)
    requires ReadText(data, pos).Ok?
    ensures 0 !in ReadText(data, pos).value
    decreases |data| - pos
  {
    hide Get16;
    if Get16(data, pos) != 0 {
      TextRead(data, pos + 2);
    }
  }

  lemma VarLenRead(data: seq<Byte>, pos: nat)
    requires ReadVarLen(data, pos).Ok?
    ensures var v := ReadVarLen(data, pos).value; Storable(v) && CString(v)
  {
    hide Get16;
    if ReadText(data, pos).Ok? {
      TextRead(data, pos);
    }
  }

  lemma HeaderRead(data: seq<Byte>)
    requires ReadHeader(data).Ok?
    ensures var (h, count) := ReadHeader(data).value;
            count < 0x1_0000 && (h.extended || (h.helpId == 0 && h.style != EXTENDED_DIALOG))
  {
    hide Get16, Get32;
  }

  lemma FrontRead(data: seq<Byte>)
    requires ReadFront(data).Ok?
    ensures var (t, count) := ReadFront(data).value;
            && count < 0x1_0000 && (t.extended || (t.helpId == 0 && t.style != EXTENDED_DIALOG))
            && Storable(t.menu) && Storable(t.className) && Storable(t.title) && FontOk(t)
            && CString(t.menu) && CString(t.className) && CString(t.title) && CString(t.font.face)
  {
    hide ReadHeader, ReadVarLen, Storable, CString;
    HeaderRead(data);
    var h := ReadHeader(data);
    var menu := ReadVarLen(data, h.next);
    var name := ReadVarLen(data, menu.next);
    var title := ReadVarLen(data, name.next);
    VarLenRead(data, h.next);
    VarLenRead(data, menu.next);
    VarLenRead(data, name.next);
    FontRead(data, h.value.0.extended, h.value.0.style, title.next);
  }

  lemma FontRead(data: seq<Byte>, extended: bool, style: DWord, pos: nat)
    requires ReadFont(data, extended, style, pos).Ok?
    ensures var f := ReadFont(data, extended, style, pos).value;
            CString(f.face)
            && if HasFont(style) then
                 Storable(f.face) && (extended || (f.weight == 0 && f.italic == 0 && f.charset == 0))
               else f == NO_FONT
  {
    hide HasFont, Get16;
    if HasFont(style) {
      VarLenRead(data, pos + if extended then 6 else 2);
    }
  }

  lemma ItemRead(data: seq<Byte>, extended: bool, pos: nat)
    requires ReadItem(data, extended, pos).Ok?
    ensures var item := ReadItem(data, extended, pos).value;
            ItemOk(extended, item) && CString(item.className) && CString(item.title)
  {
    hide ReadVarLen, Storable, CString, Get16, Get32;
    var h := ReadItemHeader(data, extended, pos);
    VarLenRead(data, h.next);
    VarLenRead(data, ReadVarLen(data, h.next).next);
  }

  lemma {:induction false} ItemsRead(data: seq<Byte>, extended: bool, start: nat, k: nat)
    requires ReadItems(data, extended, start, k).Ok?
    ensures var items := ReadItems(data, extended, start, k).value;
            |items| == k && forall i :: 0 <= i < k ==>
              ItemOk(extended, items[i]) && CString(items[i].className) && CString(items[i].title)
  {
    hide ReadItem, ItemOk, CString;
    if k > 0 {
      ItemsRead(data, extended, start, k - 1);
      ItemRead(data, extended, Skip(ReadItems(data, extended, start, k - 1).next));
    }
  }

  /** Whatever bytes it came from, a template that was parsed comes back from being saved. */
  lemma ParsedIsWellFormed(data: seq<Byte>)
    requires ReadTemplate(data).Ok?
    ensures WellFormed(ReadTemplate(data).value) && CStrings(ReadTemplate(data).value)
  {
    hide ReadFront, ReadItems, ItemOk, Storable, CString, HasFont;
    FrontRead(data);
    var front := ReadFront(data);
    ItemsRead(data, front.value.0.extended, front.next, front.value.1);
  }

  /* ---------- a font of its own ---------- */

  /** The style after `SetFont`: the bits 0x08 and 0x40 of `DS_SHELLFONT` are cleared, and set again for the shell's
      own font; other fonts set 0x40, `DS_SETFONT`, alone. */
  function FontStyle(style: DWord, face: seq<Word>): DWord {
    style / 0x80 * 0x80 + style / 0x10 % 4 * 0x10 + style % 8 + if face == SHELL_FONT then 0x48 else 0x40
  }

  /** "MS Shell Dlg". */
  const SHELL_FONT: seq<Word> := [0x4D, 0x53, 0x20, 0x53, 0x68, 0x65, 0x6C, 0x6C, 0x20, 0x44, 0x6C, 0x67]

  const DEFAULT_CHARSET := 1

  function WithFont(t: Template, face: seq<Word>, size: Word): Template {
    t.(style := FontStyle(t.style, face),
       font := t.font.(size := size, charset := DEFAULT_CHARSET, face := Text(face)))
  }

  lemma FontStyleSets(style: DWord, face: seq<Word>)
    ensures HasFont(FontStyle(style, face)) && FontStyle(style, face) != EXTENDED_DIALOG
  {
    var rest := style / 0x10 % 4 * 0x10 + style % 8 + if face == SHELL_FONT then 8 else 0;
    assert FontStyle(style, face) == 0x40 * (2 * (style / 0x80) + 1) + rest && 0 <= rest < 0x40;
  }

  /** A template with a font set comes back exactly if it is an extended one and the name of the font can be
      written down: a standard dialog has no room for the character set. */
  lemma FontSurvives(t: Template, face: seq<Word>, size: Word)
    requires WellFormed(t)
    ensures WellFormed(WithFont(t, face, size)) <==> t.extended && Storable(Text(face))
  {
    hide HasFont, FontStyle, ItemOk, Storable;
    FontStyleSets(t.style, face);
  }

  /** A standard dialog without its character set. */
  function WithoutCharset(t: Template): Template {
    if t.extended then t else t.(font := t.font.(charset := 0))
  }

  lemma {:induction false} CharsetNotWritten(unicode: bool, t: Template, k: nat)
    requires k <= |t.items|
    ensures Image(unicode, WithoutCharset(t), k) == Image(unicode, t, k)
  {
    hide Words, ItemBytes, ForTarget;
    if k > 0 {
      CharsetNotWritten(unicode, t, k - 1);
    } else {
      assert FontWords(WithoutCharset(t)) == FontWords(t);
      assert HeaderWords(WithoutCharset(t)) == HeaderWords(t);
    }
  }

  lemma CharsetDropped(t: Template, face: seq<Word>, size: Word)
    requires WellFormed(t) && CStrings(t) && 0 !in face && Storable(Text(face))
    ensures var r := WithoutCharset(WithFont(t, face, size)); WellFormed(r) && CStrings(r)
  {
    hide HasFont, FontStyle, ItemOk, Storable;
    FontStyleSets(t.style, face);
  }

  /** What is read after a font was set and the template saved: the template with the font, but a standard dialog
      without the character set. */
  lemma FontBackAgain(data: seq<Byte>, unicode: bool, t: Template, face: seq<Word>, size: Word)
    requires WellFormed(t) && CStrings(t) && 0 !in face && Storable(Text(face))
    requires At(data, 0, Image(unicode, WithFont(t, face, size), |t.items|))
    ensures var r, want := ReadTemplate(data), WithoutCharset(WithFont(t, face, size));
            r.Ok? && r.value == want.(items := Renamed(unicode, t.items))
  {
    hide Image, At, ReadTemplate, WellFormed, CStrings, FontStyle;
    var fonted := WithFont(t, face, size);
    CharsetDropped(t, face, size);
    CharsetNotWritten(unicode, fonted, |t.items|);
    RoundTrip(data, unicode, WithoutCharset(fonted));
  }
}
