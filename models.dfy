/**
 * The data model of the maintenance application: sites, assets with their
 * QR token, tasks' status codes, checklist templates and the per-task
 * checklist snapshot items, with the choice lists and field defaults the
 * Django models declare.
 */
module Models {
  import opened Wrappers
  import opened PyStr

  /** Database primary keys: auto-incremented, hence positive (and so truthy in Python). */
  type Id = n: nat | 0 < n witness 1

  /** An instant; the clock is always an argument of the operations. */
  type Time = int

  /** The name under which the file storage keeps an uploaded photo or a report. */
  type FileRef = string

  /** A finite Python `Decimal`: (-1)^negative * coefficient * 10^exponent. */
  datatype Decimal = Decimal(negative: bool, coefficient: nat, exponent: int)

  /** A `choices` list: stored code and Italian display label. */
  type Choices = seq<(string, string)>

  function ChoiceCodes(cs: Choices): set<string>
  {
    set k | 0 <= k < |cs| :: cs[k].0
  }

  // ---------------------------------------------------------------- sites

  datatype Site = Site(id: Id, name: string, address: string, notes: string)

  // --------------------------------------------------------------- assets

  datatype AssetStatus = Active | OutOfService | Disposed {
    function Code(): string {
      match this
      case Active => "active"
      case OutOfService => "out_of_service"
      case Disposed => "disposed"
    }
  }

  const AssetStatusChoices: Choices :=
    [("active", "Attivo"), ("out_of_service", "Fuori servizio"), ("disposed", "Dismesso")]

  const DefaultAssetStatus: AssetStatus := Active

  /** The asset status codes are exactly the three of the choice list, one per status. */
  lemma AssetStatusCodesAreChoices()
    ensures forall st: AssetStatus :: st.Code() in ChoiceCodes(AssetStatusChoices)
    ensures forall c :: c in ChoiceCodes(AssetStatusChoices) ==> exists st: AssetStatus :: st.Code() == c
    ensures forall s1: AssetStatus, s2: AssetStatus :: s1.Code() == s2.Code() ==> s1 == s2
  {
    assert Active.Code() == AssetStatusChoices[0].0;
    assert OutOfService.Code() == AssetStatusChoices[1].0;
    assert Disposed.Code() == AssetStatusChoices[2].0;
  }

  /** A hexadecimal digit; a UUID is 32 of them (128 bits). */
  type Nibble = n: int | 0 <= n < 16

  type Uuid = s: seq<Nibble> | |s| == 32 witness seq(32, _ => 0)

  /** The lower-case hexadecimal digit for a nibble. */
  function HexDigit(n: Nibble): char {
    if n < 10 then ('0' as int + n) as char else ('a' as int + n - 10) as char
  }

  function Hex(s: seq<Nibble>): (r: string)
    ensures |r| == |s| && forall i :: 0 <= i < |s| ==> r[i] == HexDigit(s[i])
  {
    if s == [] then [] else [HexDigit(s[0])] + Hex(s[1..])
  }

  /** Dashes after hex digits 8, 12, 16 and 20: the 8-4-4-4-12 grouping. */
  function InsertDashes(h: string): (r: string)
    requires |h| == 32
    ensures |r| == 36
  {
    h[..8] + "-" + h[8..12] + "-" + h[12..16] + "-" + h[16..20] + "-" + h[20..]
  }

  function RemoveDashes(s: string): (r: string)
    requires |s| == 36
    ensures |r| == 32
  {
    s[..8] + s[9..13] + s[14..18] + s[19..23] + s[24..]
  }

  predicate UuidShaped(s: string) {
    |s| == 36 && s[8] == '-' && s[13] == '-' && s[18] == '-' && s[23] == '-'
  }

  lemma DashesRoundTrip(h: string, s: string)
    requires |h| == 32 && UuidShaped(s)
    ensures UuidShaped(InsertDashes(h)) && RemoveDashes(InsertDashes(h)) == h
    ensures InsertDashes(RemoveDashes(s)) == s
  {
    var d := InsertDashes(h);
    assert d[..8] == h[..8];
    assert d[9..13] == h[8..12];
    assert d[14..18] == h[12..16];
    assert d[19..23] == h[16..20];
    assert d[24..] == h[20..];
    assert h == h[..8] + h[8..12] + h[12..16] + h[16..20] + h[20..];
    var r := RemoveDashes(s);
    assert r[..8] == s[..8];
    assert r[8..12] == s[9..13];
    assert r[12..16] == s[14..18];
    assert r[16..20] == s[19..23];
    assert r[20..] == s[24..];
    assert s == s[..8] + [s[8]] + s[9..13] + [s[13]] + s[14..18] + [s[18]] + s[19..23] + [s[23]] + s[24..];
  }

  /** Python's `str(uuid)`: lower-case hex in groups of 8-4-4-4-12 joined by dashes. */
  function UuidString(u: Uuid): (r: string)
    ensures UuidShaped(r) && RemoveDashes(r) == Hex(u)
  {
    DashesRoundTrip(Hex(u), InsertDashes(Hex(u)));
    InsertDashes(Hex(u))
  }

  function HexValue(c: char): Option<Nibble>
  {
    if '0' <= c <= '9' then Some(c as int - '0' as int)
    else if 'a' <= c <= 'f' then Some(c as int - 'a' as int + 10)
    else None
  }

  /** The nibbles a string of lower-case hex digits spells. */
  function HexValues(s: string): (r: Option<seq<Nibble>>)
    ensures r.Some? ==> Hex(r.value) == s
  {
    if s == [] then Some([])
    else
      var d := HexValue(s[0]);
      var ds := HexValues(s[1..]);
      if d.Some? && ds.Some? then
        assert s == [s[0]] + s[1..];
        Some([d.value] + ds.value)
      else None
  }

  lemma HexDigitValue(n: Nibble)
    ensures HexValue(HexDigit(n)) == Some(n)
  {
  }

  lemma {:induction false} HexValuesOfHex(n: seq<Nibble>)
    ensures HexValues(Hex(n)) == Some(n)
  {
    if n != [] {
      var h := Hex(n);
      assert h[0] == HexDigit(n[0]);
      assert h[1..] == Hex(n[1..]);
      HexDigitValue(n[0]);
      HexValuesOfHex(n[1..]);
      assert n == [n[0]] + n[1..];
    }
  }

  /**
   * The `<uuid:token>` path converter: accepts exactly the canonical
   * lower-case 8-4-4-4-12 form and yields the token it spells.
   */
  function ParseUuid(s: string): (r: Option<Uuid>)
    ensures r.Some? ==> UuidString(r.value) == s
  {
    if !UuidShaped(s) then None
    else match HexValues(RemoveDashes(s))
      case Some(n) =>
        DashesRoundTrip(RemoveDashes(s), s);
        Some(n)
      case None => None
  }

  /** Printing a token and parsing it back gives the token. */
  lemma UuidRoundTrip(u: Uuid)
    ensures ParseUuid(UuidString(u)) == Some(u)
  {
    DashesRoundTrip(Hex(u), UuidString(u));
    HexValuesOfHex(u);
  }

  datatype Asset = Asset(
    id: Id,
    site: Id,
    name: string,
    assetType: string,
    serial: string,
    vendor: string,
    status: AssetStatus,
    qrToken: Uuid)

  /** A freshly created asset: optional text fields empty, status `active`, the generated token. */
  function NewAsset(id: Id, site: Id, name: string, token: Uuid): (a: Asset)
    ensures a.status == Active && a.status.Code() in ChoiceCodes(AssetStatusChoices)
    ensures a.assetType == "" && a.serial == "" && a.vendor == ""
    ensures a.qrToken == token && a.site == site && a.name == name && a.id == id
  {
    AssetStatusCodesAreChoices();
    Asset(id, site, name, "", "", "", DefaultAssetStatus, token)
  }

  /** `Asset.qr_url`: the public address `<base-url>/a/<token>/`. */
  function QrUrl(baseUrl: string, token: Uuid): (r: string)
    ensures |r| == |baseUrl| + 40 && r[..|baseUrl|] == baseUrl
    ensures r[|baseUrl|..|baseUrl| + 3] == "/a/" && r[|r| - 1] == '/'
  {
    baseUrl + "/a/" + UuidString(token) + "/"
  }

  /** The route `a/<uuid:token>/` below the base address: the token a public URL names. */
  function TokenOfUrl(baseUrl: string, url: string): (r: Option<Uuid>)
    ensures r.Some? ==> QrUrl(baseUrl, r.value) == url
  {
    if |url| == |baseUrl| + 40 && url[..|baseUrl| + 3] == baseUrl + "/a/" && url[|url| - 1] == '/'
    then
      var t := ParseUuid(url[|baseUrl| + 3..|url| - 1]);
      assert url == url[..|baseUrl| + 3] + url[|baseUrl| + 3..|url| - 1] + [url[|url| - 1]];
      t
    else None
  }

  /** The QR address names its token back, so distinct tokens give distinct addresses. */
  lemma QrUrlNamesToken(baseUrl: string, t1: Uuid, t2: Uuid)
    ensures TokenOfUrl(baseUrl, QrUrl(baseUrl, t1)) == Some(t1)
    ensures QrUrl(baseUrl, t1) == QrUrl(baseUrl, t2) ==> t1 == t2
  {
    var url := QrUrl(baseUrl, t1);
    assert url[..|baseUrl| + 3] == baseUrl + "/a/";
    assert url[|baseUrl| + 3..|url| - 1] == UuidString(t1);
    UuidRoundTrip(t1);
    if QrUrl(baseUrl, t1) == QrUrl(baseUrl, t2) {
      var url2 := QrUrl(baseUrl, t2);
      assert url2[|baseUrl| + 3..|url2| - 1] == UuidString(t2);
      UuidRoundTrip(t2);
    }
  }

  /** The storage-layer uniqueness constraint on `qr_token`, taken as given. */
  ghost predicate TokensUnique(assets: seq<Asset>) {
    forall i, j :: 0 <= i < |assets| && 0 <= j < |assets| && assets[i].qrToken == assets[j].qrToken ==> i == j
  }

  // ---------------------------------------------------------------- tasks

  datatype TaskStatus = Scheduled | InProgress | Done | Cancelled {
    function Code(): string {
      match this
      case Scheduled => "scheduled"
      case InProgress => "in_progress"
      case Done => "done"
      case Cancelled => "cancelled"
    }

    /** `get_status_display()`. */
    function Label(): string {
      match this
      case Scheduled => "Programmato"
      case InProgress => "In corso"
      case Done => "Chiuso"
      case Cancelled => "Annullato"
    }
  }

  const TaskStatusChoices: Choices :=
    [("scheduled", "Programmato"), ("in_progress", "In corso"), ("done", "Chiuso"), ("cancelled", "Annullato")]

  const DefaultTaskStatus: TaskStatus := Scheduled

  /** Membership in `{value for value, _ in STATUS_CHOICES}`, and the status the code names. */
  function ParseTaskStatus(code: string): (r: Option<TaskStatus>)
    ensures r.Some? <==> code in ChoiceCodes(TaskStatusChoices)
    ensures r.Some? ==> r.value.Code() == code
  {
    assert TaskStatusChoices[0].0 == "scheduled" && TaskStatusChoices[1].0 == "in_progress";
    assert TaskStatusChoices[2].0 == "done" && TaskStatusChoices[3].0 == "cancelled";
    if code == "scheduled" then Some(Scheduled)
    else if code == "in_progress" then Some(InProgress)
    else if code == "done" then Some(Done)
    else if code == "cancelled" then Some(Cancelled)
    else None
  }

  /** Every status code is accepted and names its status; each status carries its choice-list label. */
  lemma TaskStatusCodes(st: TaskStatus)
    ensures ParseTaskStatus(st.Code()) == Some(st)
    ensures (st.Code(), st.Label()) in TaskStatusChoices
  {
  }

  // ------------------------------------------------------------ checklists

  datatype ItemType = YesNo | Number | Text | Photo {
    function Code(): string {
      match this
      case YesNo => "yesno"
      case Number => "number"
      case Text => "text"
      case Photo => "photo"
    }
  }

  const ItemTypeChoices: Choices :=
    [("yesno", "SI/NO"), ("number", "Numero"), ("text", "Testo"), ("photo", "Foto")]

  const DefaultItemType: ItemType := YesNo

  /** Membership in `{value for value, _ in TYPE_CHOICES}`, and the type the code names. */
  function ParseItemType(code: string): (r: Option<ItemType>)
    ensures r.Some? <==> code in ChoiceCodes(ItemTypeChoices)
    ensures r.Some? ==> r.value.Code() == code
  {
    assert ItemTypeChoices[0].0 == "yesno" && ItemTypeChoices[1].0 == "number";
    assert ItemTypeChoices[2].0 == "text" && ItemTypeChoices[3].0 == "photo";
    if code == "yesno" then Some(YesNo)
    else if code == "number" then Some(Number)
    else if code == "text" then Some(Text)
    else if code == "photo" then Some(Photo)
    else None
  }

  /** Every item type code is accepted and names its type. */
  lemma ItemTypeCodes(t: ItemType)
    ensures ParseItemType(t.Code()) == Some(t)
  {
  }

  datatype Template = Template(id: Id, name: string, site: Option<Id>, items: seq<TemplateItem>)

  /** A question definition; `itemType` holds the stored code. */
  datatype TemplateItem = TemplateItem(
    id: Id,
    order: nat,
    labelText: string,
    itemType: string,
    required: bool,
    unit: string)

  /** `Meta.ordering = ["order", "id"]`: ascending `order`, ties by ascending `id`. */
  predicate ItemBefore(a: TemplateItem, b: TemplateItem) {
    a.order < b.order || (a.order == b.order && a.id <= b.id)
  }

  predicate InTemplateOrder(s: seq<TemplateItem>) {
    forall i, j :: 0 <= i < j < |s| ==> ItemBefore(s[i], s[j])
  }

  predicate DistinctIds(s: seq<TemplateItem>) {
    forall i, j :: 0 <= i < j < |s| ==> s[i].id != s[j].id
  }

  /** Putting an item before a sorted list it precedes entirely keeps it sorted. */
  lemma ConsInOrder(h: TemplateItem, t: seq<TemplateItem>)
    requires InTemplateOrder(t)
    requires forall k :: 0 <= k < |t| ==> ItemBefore(h, t[k])
    ensures InTemplateOrder([h] + t)
  {
    var u := [h] + t;
    forall i, j | 0 <= i < j < |u| ensures ItemBefore(u[i], u[j]) {
      assert u[j] == t[j - 1];
      if 0 < i {
        assert u[i] == t[i - 1];
      }
    }
  }

  /** An item ahead of `x` and of everything in `t` is ahead of everything in a rearrangement of `t` with `x`. */
  lemma AheadOfAll(h: TemplateItem, x: TemplateItem, t: seq<TemplateItem>, u: seq<TemplateItem>)
    requires ItemBefore(h, x)
    requires forall k :: 0 <= k < |t| ==> ItemBefore(h, t[k])
    requires multiset(u) == multiset(t) + multiset{x}
    ensures forall k :: 0 <= k < |u| ==> ItemBefore(h, u[k])
  {
    forall k | 0 <= k < |u| ensures ItemBefore(h, u[k]) {
      assert u[k] in multiset(u);
      if u[k] != x {
        assert u[k] in multiset(t);
        var j :| 0 <= j < |t| && t[j] == u[k];
      }
    }
  }

  /** Inserts `x` into a sorted list at its place in (order, id) order. */
  function Insert(x: TemplateItem, s: seq<TemplateItem>): (r: seq<TemplateItem>)
    requires InTemplateOrder(s)
    ensures InTemplateOrder(r)
    ensures multiset(r) == multiset(s) + multiset{x} && |r| == |s| + 1
  {
    if s == [] then [x]
    else if ItemBefore(x, s[0]) then
      assert forall k :: 0 <= k < |s| ==> ItemBefore(s[0], s[k]);
      ConsInOrder(x, s);
      [x] + s
    else
      var rest := Insert(x, s[1..]);
      assert s == [s[0]] + s[1..];
      assert forall k :: 0 <= k < |s[1..]| ==> ItemBefore(s[0], s[1..][k]);
      AheadOfAll(s[0], x, s[1..], rest);
      ConsInOrder(s[0], rest);
      [s[0]] + rest
  }

  /** `template.items.all()`: the template's items in (order, id) order. */
  function OrderedItems(s: seq<TemplateItem>): (r: seq<TemplateItem>)
    ensures InTemplateOrder(r)
    ensures multiset(r) == multiset(s) && |r| == |s|
  {
    if s == [] then []
    else
      assert s == [s[0]] + s[1..];
      Insert(s[0], OrderedItems(s[1..]))
  }

  lemma TailInOrder(s: seq<TemplateItem>)
    requires s != [] && InTemplateOrder(s)
    ensures InTemplateOrder(s[1..])
  {
    forall i, j | 0 <= i < j < |s| - 1 ensures ItemBefore(s[1..][i], s[1..][j]) {
      assert s[1..][i] == s[i + 1] && s[1..][j] == s[j + 1];
    }
  }

  lemma TailDistinct(s: seq<TemplateItem>)
    requires s != [] && DistinctIds(s)
    ensures DistinctIds(s[1..])
  {
    forall i, j | 0 <= i < j < |s| - 1 ensures s[1..][i].id != s[1..][j].id {
      assert s[1..][i] == s[i + 1] && s[1..][j] == s[j + 1];
    }
  }

  /** Two sorted arrangements of the same items with distinct ids start with the same item. */
  lemma SameHead(s: seq<TemplateItem>, t: seq<TemplateItem>)
    requires s != [] && InTemplateOrder(s) && InTemplateOrder(t) && DistinctIds(s)
    requires multiset(s) == multiset(t)
    ensures t != [] && s[0] == t[0]
  {
    assert s[0] in multiset(t);
    assert t != [];
    assert t[0] in multiset(s);
    var i :| 0 <= i < |t| && t[i] == s[0];
    var j :| 0 <= j < |s| && s[j] == t[0];
    assert ItemBefore(t[0], s[0]);
    assert ItemBefore(s[0], t[0]);
    assert s[j].id == s[0].id;
  }

  lemma SameTail(s: seq<TemplateItem>, t: seq<TemplateItem>)
    requires s != [] && t != [] && s[0] == t[0] && multiset(s) == multiset(t)
    ensures multiset(s[1..]) == multiset(t[1..])
  {
    assert s == [s[0]] + s[1..];
    assert t == [t[0]] + t[1..];
    assert multiset(s[1..]) == multiset(s) - multiset{s[0]};
    assert multiset(t[1..]) == multiset(t) - multiset{t[0]};
  }

  /**
   * With distinct ids, (order, id) order leaves no choice: two orderings of
   * the same items agree, so `OrderedItems` is the database's order.
   */
  lemma {:induction false} TemplateOrderUnique(s: seq<TemplateItem>, t: seq<TemplateItem>)
    requires InTemplateOrder(s) && InTemplateOrder(t) && DistinctIds(s)
    requires multiset(s) == multiset(t)
    ensures s == t
    decreases |s|
  {
    if s == [] {
      assert |t| == |multiset(t)| == 0;
    } else {
      SameHead(s, t);
      SameTail(s, t);
      TailInOrder(s);
      TailInOrder(t);
      TailDistinct(s);
      TemplateOrderUnique(s[1..], t[1..]);
      assert s == [s[0]] + s[1..];
      assert t == [t[0]] + t[1..];
    }
  }

  /**
   * A per-task checklist entry: a snapshot of a question (label, type code,
   * required flag, unit), an optional asset, and one value slot per type.
   */
  datatype ChecklistItem = ChecklistItem(
    id: Id,
    asset: Option<Id>,
    templateItem: Option<Id>,
    labelSnapshot: string,
    itemType: string,
    required: bool,
    unit: string,
    valueText: string,
    valueNumber: Option<Decimal>,
    valueBool: Option<bool>,
    attachment: Option<FileRef>)

  /** All value slots at their defaults: empty text, no number, no answer, no attachment. */
  predicate Unanswered(c: ChecklistItem) {
    c.valueText == "" && c.valueNumber.None? && c.valueBool.None? && c.attachment.None?
  }

  /** Only the value slot the item's type selects may hold an answer; the others stay empty. */
  predicate SlotsMatchType(c: ChecklistItem) {
    && (c.itemType != "yesno" ==> c.valueBool.None?)
    && (c.itemType != "number" ==> c.valueNumber.None?)
    && (c.itemType != "text" ==> c.valueText == "")
    && (c.itemType != "photo" ==> c.attachment.None?)
  }

  /** A new `TaskChecklistItem`: the given snapshot fields with every value slot empty. */
  function NewChecklistItem(
    id: Id, asset: Option<Id>, templateItem: Option<Id>,
    labelSnapshot: string, itemType: string, required: bool, unit: string): (c: ChecklistItem)
    ensures Unanswered(c) && SlotsMatchType(c)
    ensures c.id == id && c.asset == asset && c.templateItem == templateItem
    ensures c.labelSnapshot == labelSnapshot && c.itemType == itemType && c.required == required && c.unit == unit
  {
    ChecklistItem(id, asset, templateItem, labelSnapshot, itemType, required, unit, "", None, None, None)
  }
}
