/**
 The installer's icon and the uninstaller's icon share image slots of the executable:
 the largest images of both are paired, the second largest, and so on.
 */
module Icons {
  import opened Numbers
  import opened Bytes

  /** The size of an image is what its directory entry says. */
  datatype Icon = Icon(index: nat, look: Look, data: seq<Byte>)

  /** The rest of the directory entry. */
  datatype Look = Look(width: Byte, height: Byte, paletteEntries: Byte, reserved: Byte, planes: Word,
                       bitsPerPixel: Word)

  type IconGroup = seq<Icon>

  /** As loaded: at most 65535 images, numbered by position. */
  predicate Loaded(g: IconGroup) {
    |g| <= 0xFFFF && forall i :: 0 <= i < |g| ==> g[i].index == i && |g[i].data| < DWORD_LIMIT
  }

  const NO_ICON := 0xFFFF

  datatype IconPair = IconPair(index1: nat, index2: nat, size: nat, sizeIndex: nat)

  predicate Descending(g: IconGroup) {
    forall i, j :: 0 <= i < j < |g| ==> |g[i].data| >= |g[j].data|
  }

  /** `g` sorted, with images of the same size in any order. */
  predicate SortOf(s: IconGroup, g: IconGroup) {
    Descending(s) && multiset(s) == multiset(g)
  }

  lemma OneMore<T>(s: seq<T>, i: nat)
    requires i < |s|
    ensures multiset(s[..i + 1]) == multiset(s[..i]) + multiset{s[i]}
  {
    assert s[..i + 1] == s[..i] + [s[i]];
  }

  lemma IconInserted(sorted: IconGroup, k: nat, x: Icon, r: IconGroup)
    requires Descending(sorted) && k <= |sorted|
    requires forall j :: 0 <= j < k ==> |sorted[j].data| >= |x.data|
    requires k < |sorted| ==> |sorted[k].data| < |x.data|
    requires r == sorted[..k] + [x] + sorted[k..]
    ensures Descending(r) && multiset(r) == multiset(sorted) + multiset{x}
  {
    InsertedAt(sorted, k, x, r);
  }

  lemma InsertedAt<T>(s: seq<T>, k: nat, x: T, r: seq<T>)
    requires k <= |s| && r == s[..k] + [x] + s[k..]
    ensures multiset(r) == multiset(s) + multiset{x}
    ensures forall i :: 0 <= i < |r| ==> r[i] == if i < k then s[i] else if i == k then x else s[i - 1]
  {
    assert s == s[..k] + s[k..];
  }

  method SortIcons(g: IconGroup) returns (sorted: IconGroup)
    ensures SortOf(sorted, g)
  {
    hide Descending;
    NothingDescends();
    sorted := [];
    for i := 0 to |g|
      invariant Descending(sorted) && multiset(sorted) == multiset(g[..i])
    {
      var k := 0;
      while k < |sorted| && |sorted[k].data| >= |g[i].data|
        invariant k <= |sorted| && forall j :: 0 <= j < k ==> |sorted[j].data| >= |g[i].data|
      {
        k := k + 1;
      }
      OneMore(g, i);
      var more := sorted[..k] + [g[i]] + sorted[k..];
      IconInserted(sorted, k, g[i], more);
      sorted := more;
    }
    assert g[..|g|] == g;
  }

  lemma NothingDescends()
    ensures Descending([])
  {
  }

  /* ---------- what sorting keeps ---------- */

  predicate Distinct<T(==)>(g: seq<T>) {
    forall i, j :: 0 <= i < j < |g| ==> g[i] != g[j]
  }

  lemma {:induction false} OnceIn<T>(g: seq<T>, n: nat, x: T)
    requires Distinct(g) && n <= |g|
    ensures multiset(g[..n])[x] <= 1
  {
    if n > 0 {
      OnceIn(g, n - 1, x);
      assert g[..n] == g[..n - 1] + [g[n - 1]];
      assert g[n - 1] !in g[..n - 1];
    }
  }

  lemma TwiceIn<T>(s: seq<T>, i: nat, j: nat)
    requires i < j < |s| && s[i] == s[j]
    ensures multiset(s)[s[i]] >= 2
  {
    assert s == s[..j] + s[j..];
    assert s[..j][i] == s[i] && s[j..][0] == s[j];
  }

  lemma ShuffledStaysDistinct<T>(s: seq<T>, g: seq<T>)
    requires Distinct(g) && multiset(s) == multiset(g)
    ensures Distinct(s) && |s| == |g| && (forall x :: x in s <==> x in g)
  {
    assert |multiset(s)| == |s| && |multiset(g)| == |g|;
    assert g[..|g|] == g;
    forall i, j | 0 <= i < j < |s|
      ensures s[i] != s[j]
    {
      if s[i] == s[j] {
        TwiceIn(s, i, j);
        OnceIn(g, |g|, s[i]);
      }
    }
    forall x
      ensures x in s <==> x in g
    {
      assert x in multiset(s) <==> x in multiset(g);
    }
  }

  predicate Appears(s: IconGroup, index: int) {
    exists i :: 0 <= i < |s| && s[i].index == index
  }

  /** The indices in a sorted group are the positions, each once. */
  lemma IndicesArePositions(s: IconGroup, g: IconGroup)
    requires Loaded(g) && multiset(s) == multiset(g)
    ensures |s| == |g|
    ensures forall i :: 0 <= i < |s| ==> s[i].index < |g| && g[s[i].index] == s[i]
    ensures forall i, j :: 0 <= i < j < |s| ==> s[i].index != s[j].index
    ensures forall k :: 0 <= k < |g| ==> Appears(s, k)
  {
    ShuffledStaysDistinct(s, g);
    forall i | 0 <= i < |s|
      ensures s[i].index < |g| && g[s[i].index] == s[i]
    {
      assert s[i] in g;
    }
    forall k | 0 <= k < |g|
      ensures Appears(s, k)
    {
      assert g[k] in s;
    }
  }

  function Without(b: IconGroup, j: nat): (r: IconGroup)
    requires j < |b|
    ensures |r| == |b| - 1
  {
    b[..j] + b[j + 1..]
  }

  lemma WithoutOne(b: IconGroup, j: nat)
    requires j < |b|
    ensures multiset(Without(b, j)) == multiset(b) - multiset{b[j]}
  {
    assert b == b[..j] + [b[j]] + b[j + 1..];
  }

  /** Taking out one of the largest leaves the sizes at the other places as they were. */
  lemma WithoutLargest(b: IconGroup, j: nat)
    requires Descending(b) && j < |b| && |b[0].data| == |b[j].data|
    ensures Descending(Without(b, j))
    ensures forall i :: 0 < i < |b| ==> |Without(b, j)[i - 1].data| == |b[i].data|
  {
    forall i | 0 < i < |b|
      ensures |Without(b, j)[i - 1].data| == |b[i].data|
    {
      if i <= j {
        assert |b[0].data| >= |b[i - 1].data| >= |b[i].data| >= |b[j].data|;
      }
    }
  }

  lemma LargestAreEqual(a: IconGroup, b: IconGroup) returns (j: nat)
    requires Descending(a) && Descending(b) && multiset(a) == multiset(b) && a != []
    ensures |a| == |b| && j < |b| && b[j] == a[0] && |b[0].data| == |a[0].data|
  {
    assert |multiset(a)| == |a| && |multiset(b)| == |b|;
    assert a[0] in multiset(a) && b[0] in multiset(b);
    assert a[0] in b && b[0] in a;
    j :| 0 <= j < |b| && b[j] == a[0];
  }

  /** The sizes in a sorted group do not depend on how ties were ordered. */
  lemma {:induction false} SizesAreUnique(a: IconGroup, b: IconGroup, i: nat)
    requires Descending(a) && Descending(b) && multiset(a) == multiset(b) && i < |a|
    ensures |a| == |b| && |a[i].data| == |b[i].data|
    decreases i
  {
    hide Without, Descending;
    var j := LargestAreEqual(a, b);
    if i > 0 {
      WithoutOne(a, 0);
      WithoutOne(b, j);
      WithoutLargest(a, 0);
      WithoutLargest(b, j);
      SizesAreUnique(Without(a, 0), Without(b, j), i - 1);
    }
  }

  /* ---------- pairing ---------- */

  function IndexAt(s: IconGroup, i: nat): nat {
    if i < |s| then s[i].index else NO_ICON
  }

  function SizeAt(s: IconGroup, i: nat): nat {
    if i < |s| then |s[i].data| else 0
  }

  /** The pairs of two sorted groups; where one of them has ended the other goes on alone. */
  predicate OrderOf(order: seq<IconPair>, s1: IconGroup, s2: IconGroup) {
    && |order| == Max(|s1|, |s2|)
    && forall i :: 0 <= i < |order| ==>
         order[i] == IconPair(IndexAt(s1, i), IndexAt(s2, i), Max(SizeAt(s1, i), SizeAt(s2, i)), i)
  }

  method GetIconOrder(icon1: IconGroup, icon2: IconGroup)
    returns (order: seq<IconPair>, ghost s1: IconGroup, ghost s2: IconGroup)
    ensures SortOf(s1, icon1) && SortOf(s2, icon2) && OrderOf(order, s1, s2)
  {
    hide SortOf;
    var sorted1 := SortIcons(icon1);
    var sorted2 := SortIcons(icon2);
    s1, s2 := sorted1, sorted2;
    var shared := if |sorted1| < |sorted2| then |sorted1| else |sorted2|;
    var total := if |sorted1| < |sorted2| then |sorted2| else |sorted1|;
    order := [];
    var i := 0;
    while i < shared
      invariant i <= shared && |order| == i
      invariant forall k :: 0 <= k < i ==>
                  order[k] == IconPair(IndexAt(s1, k), IndexAt(s2, k), Max(SizeAt(s1, k), SizeAt(s2, k)), k)
    {
      order := order + [IconPair(sorted1[i].index, sorted2[i].index, Max(|sorted1[i].data|, |sorted2[i].data|), i)];
      i := i + 1;
    }
    while i < total
      invariant shared <= i <= total && |order| == i
      invariant forall k :: 0 <= k < i ==>
                  order[k] == IconPair(IndexAt(s1, k), IndexAt(s2, k), Max(SizeAt(s1, k), SizeAt(s2, k)), k)
    {
      var pair := IconPair(NO_ICON, NO_ICON, 0, i);
      if i < |sorted1| {
        pair := pair.(index1 := sorted1[i].index, index2 := NO_ICON, size := |sorted1[i].data|);
      }
      if i < |sorted2| {
        pair := pair.(index2 := sorted2[i].index, index1 := NO_ICON, size := |sorted2[i].data|);
      }
      order := order + [pair];
      i := i + 1;
    }
  }

  function Key(p: IconPair, first: bool): nat {
    if first then p.index1 else p.index2
  }

  predicate Ascending(pairs: seq<IconPair>, first: bool) {
    forall i, j :: 0 <= i < j < |pairs| ==> Key(pairs[i], first) <= Key(pairs[j], first)
  }

  lemma EmptyAscends(first: bool)
    ensures Ascending([], first)
  {
  }

  lemma PairInserted(sorted: seq<IconPair>, k: nat, p: IconPair, first: bool, r: seq<IconPair>)
    requires Ascending(sorted, first) && k <= |sorted|
    requires forall j :: 0 <= j < k ==> Key(sorted[j], first) <= Key(p, first)
    requires k < |sorted| ==> Key(p, first) < Key(sorted[k], first)
    requires r == sorted[..k] + [p] + sorted[k..]
    ensures Ascending(r, first) && multiset(r) == multiset(sorted) + multiset{p}
  {
    InsertedAt(sorted, k, p, r);
  }

  method SortPairs(pairs: seq<IconPair>, first: bool) returns (sorted: seq<IconPair>)
    ensures Ascending(sorted, first) && multiset(sorted) == multiset(pairs)
  {
    hide Ascending;
    EmptyAscends(first);
    sorted := [];
    for i := 0 to |pairs|
      invariant Ascending(sorted, first) && multiset(sorted) == multiset(pairs[..i])
    {
      var k := 0;
      while k < |sorted| && Key(sorted[k], first) <= Key(pairs[i], first)
        invariant k <= |sorted| && forall j :: 0 <= j < k ==> Key(sorted[j], first) <= Key(pairs[i], first)
      {
        k := k + 1;
      }
      OneMore(pairs, i);
      var more := sorted[..k] + [pairs[i]] + sorted[k..];
      PairInserted(sorted, k, pairs[i], first, more);
      sorted := more;
    }
    assert pairs[..|pairs|] == pairs;
  }

  /** The pairs of the images of one of the groups: at their places in the order, each image once. */
  ghost predicate Covers(order: seq<IconPair>, first: bool, n: nat) {
    && (forall i :: 0 <= i < |order| ==>
          order[i].sizeIndex == i && (Key(order[i], first) < n || Key(order[i], first) == NO_ICON))
    && (forall i, j :: 0 <= i < j < |order| && Key(order[i], first) == Key(order[j], first) ==>
          Key(order[i], first) == NO_ICON)
    && (forall k: nat :: k < n ==> KeyAppears(order, first, k))
  }

  ghost predicate KeyAppears(order: seq<IconPair>, first: bool, key: nat) {
    exists i :: 0 <= i < |order| && Key(order[i], first) == key
  }

  lemma OrderCovers(order: seq<IconPair>, s1: IconGroup, s2: IconGroup, first: bool, g: IconGroup)
    requires OrderOf(order, s1, s2) && Loaded(g) && SortOf(if first then s1 else s2, g)
    ensures Covers(order, first, |g|) && |g| <= |order|
  {
    hide Loaded, SortOf;
    var s := if first then s1 else s2;
    LoadedIsSmall(g);
    SortIsShuffle(s, g);
    IndicesArePositions(s, g);
    assert forall i :: 0 <= i < |order| ==> Key(order[i], first) == IndexAt(s, i);
    forall k: nat | k < |g|
      ensures KeyAppears(order, first, k)
    {
      assert Appears(s, k);
      var i :| 0 <= i < |s| && s[i].index == k;
      assert Key(order[i], first) == k;
    }
  }

  lemma LoadedIsSmall(g: IconGroup)
    requires Loaded(g)
    ensures |g| <= NO_ICON
  {
  }

  lemma SortIsShuffle(s: IconGroup, g: IconGroup)
    requires SortOf(s, g)
    ensures multiset(s) == multiset(g) && Descending(s)
  {
  }

  /** Sorted by index, the pairs of the images come first, each at the place of its image. */
  lemma {:induction false} KeysInPlace(sorted: seq<IconPair>, order: seq<IconPair>, first: bool, n: nat, k: nat)
    requires Covers(order, first, n) && n <= NO_ICON && k < n <= |order|
    requires Ascending(sorted, first) && multiset(sorted) == multiset(order)
    ensures |sorted| == |order| && Key(sorted[k], first) == k
    ensures sorted[k].sizeIndex < |order| && order[sorted[k].sizeIndex] == sorted[k]
    decreases k
  {
    ShuffledStaysDistinct(sorted, order);
    assert sorted[k] in order;
    forall j | 0 <= j < k
      ensures Key(sorted[j], first) == j
    {
      KeysInPlace(sorted, order, first, n, j);
    }
    assert KeyAppears(order, first, k);
    var i :| 0 <= i < |order| && Key(order[i], first) == k;
    assert order[i] in sorted;
    var q :| 0 <= q < |sorted| && sorted[q] == order[i];
    assert q >= k;
    assert Key(sorted[k], first) <= k;
    if Key(sorted[k], first) < k {
      var j := Key(sorted[k], first);
      SameKeySamePair(sorted, order, first, n, j, k);
    }
  }

  lemma SameKeySamePair(sorted: seq<IconPair>, order: seq<IconPair>, first: bool, n: nat, j: nat, k: nat)
    requires Covers(order, first, n) && n <= NO_ICON && j < k < |sorted| && Distinct(sorted)
    requires sorted[j] in order && sorted[k] in order
    ensures Key(sorted[j], first) == Key(sorted[k], first) ==> Key(sorted[k], first) == NO_ICON
  {
    var a :| 0 <= a < |order| && order[a] == sorted[j];
    var b :| 0 <= b < |order| && order[b] == sorted[k];
  }

  /* ---------- groups ---------- */

  /** An entry of a group resource: the image it describes is the resource with the number `rsrcId`. */
  datatype GroupEntry = GroupEntry(look: Look, size: nat, rsrcId: nat)

  /** The entry describes image `j` of the group, and names the slot that the order gives it. */
  predicate Describes(e: GroupEntry, icon: IconGroup, order: seq<IconPair>, first: bool, j: nat)
    requires j < |icon|
  {
    && e.look == icon[j].look && e.size == |icon[j].data|
    && 1 <= e.rsrcId <= |order| && Key(order[e.rsrcId - 1], first) == j
  }

  /** Entries name different slots. */
  predicate SlotsDiffer(entries: seq<GroupEntry>) {
    forall i, j :: 0 <= i < j < |entries| ==> entries[i].rsrcId != entries[j].rsrcId
  }

  method GenerateIconGroup(icon: IconGroup, order: seq<IconPair>, first: bool) returns (entries: seq<GroupEntry>)
    requires Covers(order, first, |icon|) && |icon| <= |order| <= 0xFFFF
    ensures |entries| == |icon| && SlotsDiffer(entries)
    ensures forall j :: 0 <= j < |icon| ==> Describes(entries[j], icon, order, first, j)
  {
    var sorted := SortPairs(order, first);
    entries := [];
    for i := 0 to |icon|
      invariant |entries| == i
      invariant forall j :: 0 <= j < i ==> Describes(entries[j], icon, order, first, j)
    {
      KeysInPlace(sorted, order, first, |icon|, i);
      PlaceIsSlot(order, first, |icon|, sorted[i].sizeIndex);
      var index := Key(sorted[i], first);
      entries := entries + [GroupEntry(icon[index].look, |icon[index].data|, (sorted[i].sizeIndex + 1) % 0x1_0000)];
    }
  }

  lemma PlaceIsSlot(order: seq<IconPair>, first: bool, n: nat, i: nat)
    requires Covers(order, first, n) && i < |order|
    ensures order[i].sizeIndex == i
  {
  }

  lemma OrderIsSmall(order: seq<IconPair>, s1: IconGroup, s2: IconGroup, icon1: IconGroup, icon2: IconGroup)
    requires OrderOf(order, s1, s2) && SortOf(s1, icon1) && SortOf(s2, icon2) && Loaded(icon1) && Loaded(icon2)
    ensures |order| <= 0xFFFF
  {
    assert |multiset(s1)| == |multiset(icon1)| && |multiset(s2)| == |multiset(icon2)|;
  }

  /** What slot `k` holds: the installer's image, filled up to the size of the slot. */
  function SlotData(s1: IconGroup, k: nat, size: nat): seq<Byte>
    requires SizeAt(s1, k) <= size
  {
    (if k < |s1| then s1[k].data else []) + Zeros(size - SizeAt(s1, k))
  }

  predicate SlotFilled(images: map<nat, seq<Byte>>, s1: IconGroup, order: seq<IconPair>, k: nat)
    requires k < |order|
  {
    SizeAt(s1, k) <= order[k].size && k + 1 in images && images[k + 1] == SlotData(s1, k, order[k].size)
  }

  const MAIN_ICON_LAST_IMAGE := 99

  /** The icon resources of the executable, in the default language. */
  class IconResources {
    var group: seq<GroupEntry>
    var images: map<nat, seq<Byte>>

    method DeleteImage(id: nat) returns (ok: bool)
      modifies this`images
      ensures ok == (id in old(images)) && images == old(images) - {id}
    {
      ok := id in images;
      images := images - {id};
    }

    /** Puts the installer's icon in, with room for the uninstaller's. */
    method SetMainIcon(icon1: IconGroup, icon2: IconGroup)
        returns (order: seq<IconPair>, ghost s1: IconGroup, ghost s2: IconGroup)
      requires Loaded(icon1) && Loaded(icon2)
      modifies this
      ensures SortOf(s1, icon1) && SortOf(s2, icon2) && OrderOf(order, s1, s2)
      ensures |group| == |icon1| && SlotsDiffer(group)
      ensures forall j :: 0 <= j < |icon1| ==> Describes(group[j], icon1, order, true, j)
      ensures forall k :: 0 <= k < |order| ==> SlotFilled(images, s1, order, k)
    {
      hide SortOf, Loaded, Covers;
      order, s1, s2 := GetIconOrder(icon1, icon2);
      OrderCovers(order, s1, s2, true, icon1);
      OrderIsSmall(order, s1, s2, icon1, icon2);
      group := GenerateIconGroup(icon1, order, true);
      ghost var entries := group;
      var i := 1;
      var more := true;
      while i <= MAIN_ICON_LAST_IMAGE && more
        invariant group == entries
        decreases MAIN_ICON_LAST_IMAGE + 1 - i
      {
        more := DeleteImage(i);
        i := i + 1;
      }
      SetImages(order, icon1, s1, s2);
    }

    method SetImages(order: seq<IconPair>, icon1: IconGroup, ghost s1: IconGroup, ghost s2: IconGroup)
      requires OrderOf(order, s1, s2) && Loaded(icon1) && SortOf(s1, icon1)
      modifies this`images
      ensures forall k :: 0 <= k < |order| ==> SlotFilled(images, s1, order, k)
    {
      IndicesArePositions(s1, icon1);
      for i := 0 to |order|
        invariant forall k :: 0 <= k < i ==> SlotFilled(images, s1, order, k)
      {
        var size := order[i].size;
        var data := Zeros(size);
        if i < |icon1| {
          var icon := icon1[order[i].index1];
          data := icon.data + data[|icon.data|..];
        }
        assert data == SlotData(s1, i, size);
        assert order[i].sizeIndex == i;
        ghost var before := images;
        images := images[order[i].sizeIndex + 1 := data];
        forall k | 0 <= k < i
          ensures SlotFilled(images, s1, order, k)
        {
          assert SlotFilled(before, s1, order, k);
        }
      }
    }
  }

  /** In the installer every entry of the group leads to its image. */
  lemma InstallerImagesAreInPlace(group: seq<GroupEntry>, images: map<nat, seq<Byte>>, icon1: IconGroup, s1: IconGroup,
                                  s2: IconGroup, order: seq<IconPair>, j: nat)
    requires Loaded(icon1) && SortOf(s1, icon1) && OrderOf(order, s1, s2) && j < |icon1| == |group|
    requires Describes(group[j], icon1, order, true, j)
    requires forall k :: 0 <= k < |order| ==> SlotFilled(images, s1, order, k)
    ensures group[j].rsrcId in images && icon1[j].data <= images[group[j].rsrcId]
  {
    IndicesArePositions(s1, icon1);
    var k := group[j].rsrcId - 1;
    assert SlotFilled(images, s1, order, k);
    assert Key(order[k], true) == IndexAt(s1, k) == j;
  }

  /** The uninstaller's images, in whatever order ties were put when its data was made, fit into the slots
      that were made with ties in whatever order. */
  lemma UninstallerImagesFit(icon2: IconGroup, order: seq<IconPair>, s1: IconGroup, s2: IconGroup,
                             other2: IconGroup, i: nat)
    requires Loaded(icon2) && SortOf(s2, icon2) && SortOf(other2, icon2) && OrderOf(order, s1, s2)
    requires i < |other2|
    ensures i < |order| && |other2[i].data| <= order[i].size
  {
    SizesAreUnique(other2, s2, i);
  }

  /* ---------- the uninstaller's data ---------- */

  function LookBytes(look: Look): seq<Byte> {
    [look.width, look.height, look.paletteEntries, look.reserved] + Le16(look.planes) + Le16(look.bitsPerPixel)
  }

  /** The first `n` entries of a group resource. */
  function EntryBytes(entries: seq<GroupEntry>, n: nat): (b: seq<Byte>)
    requires n <= |entries|
    requires forall i :: 0 <= i < |entries| ==> entries[i].size < DWORD_LIMIT && entries[i].rsrcId < WORD_LIMIT
    ensures |b| == 14 * n
  {
    if n == 0 then []
    else
      var e := entries[n - 1];
      EntryBytes(entries, n - 1) + LookBytes(e.look) + Le32(e.size) + Le16(e.rsrcId)
  }

  /** Size, offset and bytes of an image. */
  function Record(image: seq<Byte>, offset: DWord): seq<Byte>
    requires |image| < DWORD_LIMIT
  {
    Le32(|image|) + Le32(offset) + image
  }

  predicate Small(images: seq<seq<Byte>>) {
    forall i :: 0 <= i < |images| ==> |images[i]| < 0x1_0000_0000
  }

  /** The first records, with the offsets they were given. */
  function Located(images: seq<seq<Byte>>, offsets: seq<DWord>): seq<Byte>
    requires Small(images) && |offsets| <= |images|
  {
    var k := |offsets|;
    if k == 0 then [] else Located(images, offsets[..k - 1]) + Record(images[k - 1], offsets[k - 1])
  }

  /** The records from the `k`-th on, without offsets. */
  function Unlocated(images: seq<seq<Byte>>, k: nat): seq<Byte>
    requires Small(images) && k <= |images|
    decreases |images| - k
  {
    if k == |images| then [] else Record(images[k], 0) + Unlocated(images, k + 1)
  }

  /** The data, with the offsets that are known. */
  function Packed(group: seq<Byte>, groupOffset: DWord, images: seq<seq<Byte>>, offsets: seq<DWord>): seq<Byte>
    requires |group| < DWORD_LIMIT && Small(images) && |offsets| <= |images|
  {
    Le32(|group|) + Le32(groupOffset) + group + Located(images, offsets) + Unlocated(images, |offsets|) + Le32(0)
  }

  /** A resource of the executable. */
  datatype Place = Place(offset: DWord, size: DWord)

  /** How many records are visited: the list ends at the first image without bytes. */
  function Visited(images: seq<seq<Byte>>, i: nat): (n: nat)
    requires i <= |images|
    ensures i <= n <= |images| && (n < |images| ==> images[n] == [])
    ensures forall k :: i <= k < n ==> images[k] != []
    decreases |images| - i
  {
    if i == |images| || images[i] == [] then i else Visited(images, i + 1)
  }

  /** Image `i` can replace slot `i + 1`. */
  predicate Fits(places: map<nat, Place>, exeSize: nat, images: seq<seq<Byte>>, i: nat)
    requires i < |images|
  {
    i + 1 in places && places[i + 1].offset <= exeSize && |images[i]| <= places[i + 1].size
  }

  /** The first `n` images fit, and these are the offsets of their slots. */
  predicate AllFit(places: map<nat, Place>, exeSize: nat, images: seq<seq<Byte>>, n: nat) {
    n <= |images| && forall i :: 0 <= i < n ==> Fits(places, exeSize, images, i)
  }

  predicate AreOffsets(places: map<nat, Place>, offsets: seq<DWord>) {
    forall i :: 0 <= i < |offsets| ==> IsOffset(places, i + 1, offsets[i])
  }

  predicate IsOffset(places: map<nat, Place>, id: nat, offset: DWord) {
    id in places && places[id].offset == offset
  }

  /** Reading and patching a number between two known parts. */
  lemma NumberBetween(a: seq<Byte>, v: DWord, c: seq<Byte>)
    ensures Get32(a + Le32(v) + c, |a|) == v
  {
    var s, b := a + Le32(v) + c, Le32(v);
    assert s[|a|] == b[0] && s[|a| + 1] == b[1] && s[|a| + 2] == b[2] && s[|a| + 3] == b[3];
  }

  method Put32(data: array<Byte>, ghost a: seq<Byte>, ghost x: DWord, ghost c: seq<Byte>, at: nat, v: DWord)
    requires data[..] == a + Le32(x) + c && at == |a|
    modifies data
    ensures data[..] == a + Le32(v) + c
  {
    var b := Le32(v);
    data[at], data[at + 1], data[at + 2], data[at + 3] := b[0], b[1], b[2], b[3];
    ghost var s := a + Le32(v) + c;
    forall i | 0 <= i < data.Length
      ensures data[i] == s[i]
    {
      if i < at || at + 4 <= i {
        assert data[i] == old(data[..])[i];
      }
    }
  }

  lemma PackedStart(group: seq<Byte>, groupOffset: DWord, images: seq<seq<Byte>>)
    requires |group| < DWORD_LIMIT && Small(images)
    ensures Packed(group, groupOffset, images, []) ==
            Le32(|group|) + Le32(groupOffset) + (group + Unlocated(images, 0) + Le32(0))
    ensures Packed(group, groupOffset, images, []) ==
            [] + Le32(|group|) + (Le32(groupOffset) + (group + Unlocated(images, 0) + Le32(0)))
  {
  }

  /** The part before the record that comes next. */
  function Before(group: seq<Byte>, groupOffset: DWord, images: seq<seq<Byte>>, offsets: seq<DWord>): seq<Byte>
    requires |group| < DWORD_LIMIT && Small(images) && |offsets| <= |images|
  {
    Le32(|group|) + Le32(groupOffset) + group + Located(images, offsets)
  }

  lemma PackedHere(group: seq<Byte>, groupOffset: DWord, images: seq<seq<Byte>>, offsets: seq<DWord>)
    requires |group| < DWORD_LIMIT && Small(images) && |offsets| <= |images|
    ensures var k, before, all := |offsets|, Before(group, groupOffset, images, offsets),
        Packed(group, groupOffset, images, offsets);
            if k == |images| then all == before + Le32(0) + []
            else
              && all == before + Le32(|images[k]|) + (Le32(0) + (images[k] + Unlocated(images, k + 1) + Le32(0)))
              && all == before + Le32(|images[k]|) + Le32(0) + (images[k] + Unlocated(images, k + 1) + Le32(0))
  {
  }

  lemma PackedNext(group: seq<Byte>, groupOffset: DWord, images: seq<seq<Byte>>, offsets: seq<DWord>, offset: DWord)
    requires |group| < DWORD_LIMIT && Small(images) && |offsets| < |images|
    ensures var k, before := |offsets|, Before(group, groupOffset, images, offsets);
            && Packed(group, groupOffset, images, offsets + [offset]) ==
               before + Le32(|images[k]|) + Le32(offset) + (images[k] + Unlocated(images, k + 1) + Le32(0))
            && |Before(group, groupOffset, images, offsets + [offset])| == |before| + 8 + |images[k]|
  {
    assert (offsets + [offset])[..|offsets|] == offsets;
  }

  method LocateGroup(data: array<Byte>, groupOffset: DWord, ghost group: seq<Byte>, ghost images: seq<seq<Byte>>)
    returns (seeker: nat)
    requires |group| < DWORD_LIMIT && Small(images) && data[..] == Packed(group, 0, images, [])
    modifies data
    ensures data[..] == Packed(group, groupOffset, images, [])
    ensures seeker == |Before(group, groupOffset, images, [])|
  {
    hide Packed, Before, Located, Unlocated;
    PackedStart(group, 0, images);
    PackedStart(group, groupOffset, images);
    BeforeStarts(group, groupOffset, images);
    ghost var tail := group + Unlocated(images, 0) + Le32(0);
    NumberBetween([], |group|, Le32(0) + tail);
    var size := Get32(data[..], 0);
    Put32(data, Le32(|group|), 0, tail, 4, groupOffset);
    seeker := 8 + size;
  }

  method LocateRecord(data: array<Byte>, seeker: nat, size: DWord, offset: DWord, ghost group: seq<Byte>,
                      ghost groupOffset: DWord, ghost images: seq<seq<Byte>>, ghost offsets: seq<DWord>)
    requires |group| < DWORD_LIMIT && Small(images) && |offsets| < |images| && size == |images[|offsets|]|
    requires data[..] == Packed(group, groupOffset, images, offsets)
    requires seeker == |Before(group, groupOffset, images, offsets)|
    modifies data
    ensures data[..] == Packed(group, groupOffset, images, offsets + [offset])
    ensures seeker + 8 + size == |Before(group, groupOffset, images, offsets + [offset])|
  {
    hide Packed, Before, Located, Unlocated;
    ghost var k := |offsets|;
    PackedHere(group, groupOffset, images, offsets);
    PackedNext(group, groupOffset, images, offsets, offset);
    ghost var before := Before(group, groupOffset, images, offsets) + Le32(size);
    Put32(data, before, 0, images[k] + Unlocated(images, k + 1) + Le32(0), seeker + 4, offset);
  }

  /** Writes the offsets of the slots into the data; fails if a slot is missing or too small. */
  method GenerateUniconsOffsets(data: array<Byte>, exeSize: nat, groupOffset: DWord, places: map<nat, Place>,
                                ghost group: seq<Byte>, ghost images: seq<seq<Byte>>)
    returns (ok: bool, ghost offsets: seq<DWord>)
    requires |group| < DWORD_LIMIT && Small(images) && data[..] == Packed(group, 0, images, [])
    modifies data
    ensures ok == AllFit(places, exeSize, images, Visited(images, 0))
    ensures ok ==> |offsets| == Visited(images, 0) && AreOffsets(places, offsets)
                   && data[..] == Packed(group, groupOffset, images, offsets)
  {
    hide Packed, Before, Located, Unlocated, Visited;
    offsets := [];
    var seeker := LocateGroup(data, groupOffset, group, images);
    var iconIndex := 1;
    VisitedFrom(images, 0);
    var more := true;
    ok := true;
    while more
      invariant |offsets| <= |images| && Visited(images, |offsets|) == Visited(images, 0) && AreOffsets(places, offsets)
      invariant AllFit(places, exeSize, images, |offsets|) && iconIndex == |offsets| + 1 && ok
      invariant seeker == |Before(group, groupOffset, images, offsets)|
      invariant data[..] == Packed(group, groupOffset, images, offsets)
      invariant !more ==> |offsets| == Visited(images, 0)
      decreases more, |images| - |offsets|
    {
      ghost var k := |offsets|;
      VisitedFrom(images, k);
      NumberHere(data[..], group, groupOffset, images, offsets);
      var size := Get32(data[..], seeker);
      if size == 0 {
        more := false;
      } else {
        if iconIndex !in places || places[iconIndex].offset > exeSize || places[iconIndex].size < size {
          assert !Fits(places, exeSize, images, k);
          ok := false;
          return;
        }
        assert Fits(places, exeSize, images, k);
        var offset := places[iconIndex].offset;
        LocateRecord(data, seeker, size, offset, group, groupOffset, images, offsets);
        assert IsOffset(places, k + 1, offset);
        offsets := offsets + [offset];
        seeker := seeker + 8 + size;
        iconIndex := iconIndex + 1;
      }
    }
  }

  lemma BeforeStarts(group: seq<Byte>, groupOffset: DWord, images: seq<seq<Byte>>)
    requires |group| < DWORD_LIMIT && Small(images)
    ensures |Before(group, groupOffset, images, [])| == 8 + |group|
  {
  }

  lemma VisitedFrom(images: seq<seq<Byte>>, k: nat)
    requires k <= |images|
    ensures k <= Visited(images, k) <= |images|
    ensures if k == |images| || images[k] == [] then Visited(images, k) == k
        else Visited(images, k) == Visited(images, k + 1)
  {
  }

  /** The number the loop looks at: the size of the next image, or the zero at the end. */
  lemma NumberHere(data: seq<Byte>, group: seq<Byte>, groupOffset: DWord, images: seq<seq<Byte>>, offsets: seq<DWord>)
    requires |group| < DWORD_LIMIT && Small(images) && |offsets| <= |images|
    requires data == Packed(group, groupOffset, images, offsets)
    ensures var seeker := |Before(group, groupOffset, images, offsets)|;
            && seeker + 4 <= |data|
            && Get32(data, seeker) == if |offsets| == |images| then 0 else |images[|offsets|]|
  {
    hide Packed, Before;
    PackedHere(group, groupOffset, images, offsets);
    var before, k := Before(group, groupOffset, images, offsets), |offsets|;
    if k == |images| {
      NumberBetween(before, 0, []);
    } else {
      NumberBetween(before, |images[k]|, Le32(0) + (images[k] + Unlocated(images, k + 1) + Le32(0)));
    }
  }

  /** The images of a sorted group. */
  function Images(s: IconGroup): (images: seq<seq<Byte>>)
    ensures |images| == |s| && forall i :: 0 <= i < |s| ==> images[i] == s[i].data
  {
    seq(|s|, i requires 0 <= i < |s| => s[i].data)
  }

  function GroupBytes(entries: seq<GroupEntry>, slots: nat): (b: seq<Byte>)
    requires |entries| <= slots <= 0xFFFF
    requires forall i :: 0 <= i < |entries| ==> entries[i].size < DWORD_LIMIT && entries[i].rsrcId < WORD_LIMIT
    ensures |b| == 6 + 14 * slots
  {
    Le16(0) + Le16(1) + Le16(|entries|) + EntryBytes(entries, |entries|) + Zeros(14 * (slots - |entries|))
  }

  /** Entry `e` of a group resource in bytes: what it says of the image, its size, and the number of its slot. */
  ghost predicate EntryAt(b: seq<Byte>, at: nat, e: GroupEntry) {
    && at + 14 <= |b|
    && b[at] == e.look.width && b[at + 1] == e.look.height
    && b[at + 2] == e.look.paletteEntries && b[at + 3] == e.look.reserved
    && Get16(b, at + 4) == e.look.planes && Get16(b, at + 6) == e.look.bitsPerPixel
    && Get32(b, at + 8) == e.size && Get16(b, at + 12) == e.rsrcId
  }

  lemma {:induction false} EntryPlaced(entries: seq<GroupEntry>, n: nat, j: nat)
    requires j < n <= |entries|
    requires forall i :: 0 <= i < |entries| ==> entries[i].size < DWORD_LIMIT && entries[i].rsrcId < WORD_LIMIT
    ensures EntryAt(EntryBytes(entries, n), 14 * j, entries[j])
  {
    hide Get16, Get32, Le16, Le32;
    var b, e := EntryBytes(entries, n), entries[n - 1];
    var before := EntryBytes(entries, n - 1);
    if j < n - 1 {
      EntryPlaced(entries, n - 1, j);
      assert b[..|before|] == before;
      EntryKept(before, b, 14 * j, entries[j]);
    } else {
      OneEntry(before, e);
    }
  }

  lemma EntryKept(a: seq<Byte>, b: seq<Byte>, at: nat, e: GroupEntry)
    requires EntryAt(a, at, e) && |a| <= |b| && b[..|a|] == a
    ensures EntryAt(b, at, e)
  {
    assert forall i :: 0 <= i < |a| ==> b[i] == a[i];
  }

  lemma OneEntry(before: seq<Byte>, e: GroupEntry)
    requires e.size < DWORD_LIMIT && e.rsrcId < WORD_LIMIT
    ensures EntryAt(before + LookBytes(e.look) + Le32(e.size) + Le16(e.rsrcId), |before|, e)
  {
    var b := before + LookBytes(e.look) + Le32(e.size) + Le16(e.rsrcId);
    var n := |before|;
    hide Get16, Get32, Le16, Le32;
    assert b[n + 4..n + 6] == Le16(e.look.planes) && b[n + 6..n + 8] == Le16(e.look.bitsPerPixel);
    assert b[n + 8..n + 12] == Le32(e.size) && b[n + 12..n + 14] == Le16(e.rsrcId);
    WordIn(b, n + 4);
    WordIn(b, n + 6);
    WordIn(b, n + 12);
    DwordIn(b, n + 8);
  }

  lemma WordIn(b: seq<Byte>, at: nat)
    requires at + 2 <= |b|
    ensures Get16(b[at..at + 2], 0) == Get16(b, at)
  {
  }

  lemma DwordIn(b: seq<Byte>, at: nat)
    requires at + 4 <= |b|
    ensures Get32(b[at..at + 4], 0) == Get32(b, at)
  {
  }

  /** A group resource in bytes: a reserved word, the type of icons, the number of images, and the entries; slots
      without an image are filled up with zeros. */
  lemma GroupLayout(entries: seq<GroupEntry>, slots: nat)
    requires |entries| <= slots <= 0xFFFF
    requires forall i :: 0 <= i < |entries| ==> entries[i].size < DWORD_LIMIT && entries[i].rsrcId < WORD_LIMIT
    ensures var b := GroupBytes(entries, slots);
            && Get16(b, 0) == 0 && Get16(b, 2) == 1 && Get16(b, 4) == |entries|
            && (forall j :: 0 <= j < |entries| ==> EntryAt(b, 6 + 14 * j, entries[j]))
            && (forall i :: 6 + 14 * |entries| <= i < |b| ==> b[i] == 0)
  {
    hide Get16, Get32, Le16, Le32, EntryBytes;
    var b, es := GroupBytes(entries, slots), EntryBytes(entries, |entries|);
    assert b[0..2] == Le16(0) && b[2..4] == Le16(1) && b[4..6] == Le16(|entries|);
    WordIn(b, 0);
    WordIn(b, 2);
    WordIn(b, 4);
    assert b[6..6 + 14 * |entries|] == es;
    forall j | 0 <= j < |entries|
      ensures EntryAt(b, 6 + 14 * j, entries[j])
    {
      EntryPlaced(entries, |entries|, j);
      EntryMoved(b, es, 14 * j, entries[j]);
    }
  }

  lemma EntryMoved(b: seq<Byte>, es: seq<Byte>, at: nat, e: GroupEntry)
    requires 6 + |es| <= |b| && b[6..6 + |es|] == es && EntryAt(es, at, e)
    ensures EntryAt(b, 6 + at, e)
  {
    assert forall i :: 0 <= i < |es| ==> b[6 + i] == es[i];
  }

  /** The bytes of all images. */
  function Sum(g: IconGroup): nat {
    if g == [] then 0 else |g[0].data| + Sum(g[1..])
  }

  lemma {:induction false} SumWithout(g: IconGroup, j: nat)
    requires j < |g|
    ensures Sum(g) == |g[j].data| + Sum(Without(g, j))
    decreases j
  {
    if j == 0 {
      assert Without(g, 0) == g[1..];
    } else {
      SumWithout(g[1..], j - 1);
      assert Without(g, j)[0] == g[0] && Without(g, j)[1..] == Without(g[1..], j - 1);
    }
  }

  /** Sorting does not change how much there is. */
  lemma {:induction false} SumOfShuffle(a: IconGroup, b: IconGroup)
    requires multiset(a) == multiset(b)
    ensures Sum(a) == Sum(b)
    decreases |a|
  {
    assert |multiset(a)| == |a| && |multiset(b)| == |b|;
    if a != [] {
      assert a[0] in multiset(b);
      assert a[0] in b;
      var j :| 0 <= j < |b| && b[j] == a[0];
      WithoutOne(a, 0);
      WithoutOne(b, j);
      SumOfShuffle(Without(a, 0), Without(b, j));
      SumWithout(a, 0);
      SumWithout(b, j);
    }
  }

  lemma {:induction false} UnlocatedSize(s: IconGroup, k: nat)
    requires Small(Images(s)) && k <= |s|
    ensures |Unlocated(Images(s), k)| == 8 * (|s| - k) + Sum(s[k..])
    decreases |s| - k
  {
    if k < |s| {
      UnlocatedSize(s, k + 1);
      assert s[k..][1..] == s[k + 1..];
    }
  }

  /** The size of the uninstaller's data. */
  lemma PackedSize(icon2: IconGroup, s2: IconGroup, group: seq<Byte>)
    requires SortOf(s2, icon2) && Small(Images(s2)) && |group| < DWORD_LIMIT
    ensures |Packed(group, 0, Images(s2), [])| == |group| + 8 + 8 * |icon2| + Sum(icon2) + 4
  {
    hide Unlocated, Sum;
    assert |multiset(s2)| == |s2| && |multiset(icon2)| == |icon2|;
    UnlocatedSize(s2, 0);
    assert s2[0..] == s2;
    SumOfShuffle(s2, icon2);
  }

  /** The uninstaller's icon data: the group, and the images in the order of their slots. */
  method GenerateUninstallIconData(icon1: IconGroup, icon2: IconGroup)
    returns (data: seq<Byte>, size: nat, entries: seq<GroupEntry>, order: seq<IconPair>,
             ghost s1: IconGroup, ghost s2: IconGroup)
    requires Loaded(icon1) && Loaded(icon2)
    ensures size == |data|
    ensures SortOf(s1, icon1) && SortOf(s2, icon2) && OrderOf(order, s1, s2)
    ensures |entries| == |icon2| && SlotsDiffer(entries)
    ensures forall j :: 0 <= j < |icon2| ==> Describes(entries[j], icon2, order, false, j)
    ensures |entries| <= |order| <= 0xFFFF && Small(Images(s2))
    ensures forall i :: 0 <= i < |entries| ==> entries[i].size < DWORD_LIMIT && entries[i].rsrcId < WORD_LIMIT
    ensures data == Packed(GroupBytes(entries, |order|), 0, Images(s2), [])
  {
    hide SortOf, OrderOf, Covers, Packed, EntryBytes;
    order, s1, s2 := GetIconOrder(icon1, icon2);
    OrderCovers(order, s1, s2, false, icon2);
    OrderIsSmall(order, s1, s2, icon1, icon2);
    entries := GenerateIconGroup(icon2, order, false);
    ImagesAreSmall(icon2, s2);
    size := 6 + 14 * |order| + 8 + 8 * |icon2| + 4;
    for i := 0 to |icon2|
      invariant size + Sum(icon2[i..]) == 6 + 14 * |order| + 8 + 8 * |icon2| + 4 + Sum(icon2)
    {
      assert icon2[i..][1..] == icon2[i + 1..];
      size := size + |icon2[i].data|;
    }
    PackedSize(icon2, s2, GroupBytes(entries, |order|));
    data := PackImages(icon2, order, GroupBytes(entries, |order|), s1, s2);
  }

  lemma ImagesAreSmall(g: IconGroup, s: IconGroup)
    requires Loaded(g) && SortOf(s, g)
    ensures Small(Images(s))
  {
    IndicesArePositions(s, g);
  }

  /** The images of the ordered group after the group itself, the offsets still open. */
  method PackImages(icon2: IconGroup, order: seq<IconPair>, group: seq<Byte>, ghost s1: IconGroup, ghost s2: IconGroup)
    returns (data: seq<Byte>)
    requires Loaded(icon2) && SortOf(s2, icon2) && OrderOf(order, s1, s2) && |group| < DWORD_LIMIT && Small(Images(s2))
    ensures data == Packed(group, 0, Images(s2), [])
  {
    hide SortOf, Packed, Unlocated, Record;
    SortIsShuffle(s2, icon2);
    IndicesArePositions(s2, icon2);
    data := Le32(|group|) + Le32(0) + group;
    ghost var start := data;
    ghost var images := Images(s2);
    for i := 0 to |icon2|
      invariant start + Unlocated(images, 0) == data + Unlocated(images, i)
    {
      var icon := icon2[order[i].index2];
      assert icon == s2[i];
      UnlocatedStep(images, i);
      data := data + Record(icon.data, 0);
    }
    UnlocatedEnd(images);
    assert data + [] == data;
    PackedStart(group, 0, images);
    assert Le32(|group|) + Le32(0) + (group + Unlocated(images, 0) + Le32(0)) == start + Unlocated(images, 0) + Le32(0);
    data := data + Le32(0);
  }

  lemma UnlocatedStep(images: seq<seq<Byte>>, i: nat)
    requires Small(images) && i < |images|
    ensures forall data: seq<Byte> ::
              data + Unlocated(images, i) == data + Record(images[i], 0) + Unlocated(images, i + 1)
  {
  }

  lemma UnlocatedEnd(images: seq<seq<Byte>>)
    requires Small(images)
    ensures Unlocated(images, |images|) == []
  {
  }

  /** The executable reports its image resources: their sizes, and offsets inside the file. */
  predicate Reports(places: map<nat, Place>, exeSize: nat, images: map<nat, seq<Byte>>) {
    forall id :: id in images ==>
      id in places && places[id].size == |images[id]| && places[id].offset <= exeSize
  }

  lemma SlotSize(s1: IconGroup, images: map<nat, seq<Byte>>, order: seq<IconPair>, k: nat)
    requires k < |order| && SlotFilled(images, s1, order, k)
    ensures k + 1 in images && |images[k + 1]| == order[k].size
  {
  }

  /** In an executable whose slots `SetMainIcon` filled, the check of the sizes never fails: not for the data made
      with the same order, nor with any other way of ordering images of the same size. */
  lemma SizeCheckNeverFails(icon2: IconGroup, images: map<nat, seq<Byte>>, order: seq<IconPair>, s1: IconGroup,
                            s2: IconGroup, other2: IconGroup, places: map<nat, Place>, exeSize: nat)
    requires Loaded(icon2) && OrderOf(order, s1, s2) && SortOf(s2, icon2) && SortOf(other2, icon2)
    requires forall k :: 0 <= k < |order| ==> SlotFilled(images, s1, order, k)
    requires Reports(places, exeSize, images)
    ensures AllFit(places, exeSize, Images(other2), |other2|)
  {
    hide SortOf, OrderOf, Loaded, SlotFilled;
    forall i | 0 <= i < |other2|
      ensures Fits(places, exeSize, Images(other2), i)
    {
      UninstallerImagesFit(icon2, order, s1, s2, other2, i);
      SlotSize(s1, images, order, i);
    }
  }

  lemma VisitedAreImages(images: seq<seq<Byte>>, places: map<nat, Place>, exeSize: nat)
    requires AllFit(places, exeSize, images, |images|)
    ensures AllFit(places, exeSize, images, Visited(images, 0))
  {
  }

  /** Installer and uninstaller together: fill the slots, make the uninstaller's data, and write the offsets of
      the slots into it, as the executable reports them. It never fails. */
  method PrepareIcons(re: IconResources, icon1: IconGroup, icon2: IconGroup, exeSize: nat, groupOffset: DWord,
                      places: map<nat, Place>)
    returns (ok: bool)
    requires Loaded(icon1) && Loaded(icon2)
    modifies re
    ensures Reports(places, exeSize, re.images) ==> ok
  {
    hide SortOf, OrderOf, Loaded, SlotFilled, Packed, Describes, SlotsDiffer, Fits;
    var order, s1, s2 := re.SetMainIcon(icon1, icon2);
    var bytes, size, entries, order2, t1, t2 := GenerateUninstallIconData(icon1, icon2);
    var data := new Byte[size](i requires 0 <= i < |bytes| => bytes[i]);
    assert data[..] == bytes;
    ghost var offsets;
    ok, offsets := GenerateUniconsOffsets(data, exeSize, groupOffset, places, GroupBytes(entries, |order2|),
                                          Images(t2));
    if Reports(places, exeSize, re.images) {
      SizeCheckNeverFails(icon2, re.images, order, s1, s2, t2, places, exeSize);
      VisitedAreImages(Images(t2), places, exeSize);
    }
  }
}
