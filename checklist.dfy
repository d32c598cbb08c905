/**
 * Checklist instantiation and answer capture: snapshot items copied from a
 * template, ad hoc items, the per-type recording of a submitted batch of
 * answers, and the human-readable rendering of an answer.
 */
module Checklist {
  import opened Wrappers
  import opened PyStr
  import opened Models

  /** The submitted form fields (`request.POST`) and uploads (`request.FILES`), by field name. */
  type Form = map<string, string>
  type Files = map<string, FileRef>

  /** `request.POST.get(key, default)`. */
  function Get(form: Form, key: string, default: string): (r: string)
    ensures key in form ==> r == form[key]
    ensures key !in form ==> r == default
  {
    if key in form then form[key] else default
  }

  /**
   * `Asset.objects.filter(id=asset_id, site=site).first() if asset_id else None`:
   * the chosen asset only when it exists and stands at the given site.
   */
  function SiteAsset(assets: map<Id, Asset>, assetId: Option<Id>, site: Id): (r: Option<Id>)
    ensures r.Some? <==> assetId.Some? && assetId.value in assets && assets[assetId.value].site == site
    ensures r.Some? ==> r == assetId
  {
    if assetId.Some? && assetId.value in assets && assets[assetId.value].site == site then assetId else None
  }

  /** The site-scope test at task creation: a global template, or one of the task's own site. */
  function ScopeAllows(template: Template, site: Id): (r: bool)
    ensures template.site.None? ==> r
    ensures template.site.Some? ==> (r <==> template.site == Some(site))
  {
    template.site.None? || template.site.value == site
  }

  /** One snapshot item: the template item's label, type, required flag and unit, no answer yet. */
  function Snapshot(ti: TemplateItem, id: Id, asset: Option<Id>): (c: ChecklistItem)
    ensures Unanswered(c) && c.id == id && c.asset == asset && c.templateItem == Some(ti.id)
    ensures c.labelSnapshot == ti.labelText && c.itemType == ti.itemType
    ensures c.required == ti.required && c.unit == ti.unit
  {
    NewChecklistItem(id, asset, Some(ti.id), ti.labelText, ti.itemType, ti.required, ti.unit)
  }

  /**
   * The batch `_create_checklist_from_template` builds: one snapshot per
   * template item, in the given order, ids numbered from `firstId`, all
   * carrying the same asset.
   */
  function Snapshots(items: seq<TemplateItem>, firstId: Id, asset: Option<Id>): (r: seq<ChecklistItem>)
    ensures |r| == |items|
    ensures forall k :: 0 <= k < |r| ==> r[k] == Snapshot(items[k], firstId + k, asset)
  {
    if items == [] then []
    else [Snapshot(items[0], firstId, asset)] + Snapshots(items[1..], firstId + 1, asset)
  }

  /** The submitted `item_type` when it is one of the four codes, otherwise `yesno`. */
  function ItemTypeOrDefault(raw: string): (t: ItemType)
    ensures ParseItemType(Strip(raw)).Some? ==> t.Code() == Strip(raw)
    ensures ParseItemType(Strip(raw)).None? ==> t == DefaultItemType
  {
    match ParseItemType(Strip(raw))
    case Some(t) => t
    case None => DefaultItemType
  }

  /**
   * The item `add_checklist_item` creates, or nothing when the stripped
   * label is empty. Its type is always one of the four codes.
   */
  function AdHocItem(form: Form, id: Id, asset: Option<Id>): (r: Option<ChecklistItem>)
    ensures r.None? <==> AllSpace(Get(form, "label", ""))
    ensures r.Some? ==> Unanswered(r.value) && r.value.id == id && r.value.asset == asset
    ensures r.Some? ==> r.value.templateItem.None?
    ensures r.Some? ==> r.value.labelSnapshot == Strip(Get(form, "label", "")) && r.value.labelSnapshot != []
    ensures r.Some? ==> ParseItemType(r.value.itemType).Some?
    ensures r.Some? && ParseItemType(Strip(Get(form, "item_type", "yesno"))).None? ==> r.value.itemType == "yesno"
    ensures r.Some? && ParseItemType(Strip(Get(form, "item_type", "yesno"))).Some? ==>
              r.value.itemType == Strip(Get(form, "item_type", "yesno"))
    ensures r.Some? ==> (r.value.required <==> Get(form, "required", "") == "on")
    ensures r.Some? ==> r.value.unit == Strip(Get(form, "unit", ""))
  {
    var text := Strip(Get(form, "label", ""));
    if text == [] then None
    else
      var t := ItemTypeOrDefault(Get(form, "item_type", "yesno"));
      ItemTypeCodes(t);
      Some(NewChecklistItem(id, asset, None, text, t.Code(),
                            Get(form, "required", "") == "on", Strip(Get(form, "unit", ""))))
  }

  /** `AdHocItem` in terms of the fields read from the form. */
  lemma AdHocItemOfFields(form: Form, id: Id, asset: Option<Id>)
    ensures var text := Strip(Get(form, "label", ""));
            AdHocItem(form, id, asset) ==
              if text == [] then None
              else Some(NewChecklistItem(id, asset, None, text, ItemTypeOrDefault(Get(form, "item_type", "yesno")).Code(),
                                         Get(form, "required", "") == "on", Strip(Get(form, "unit", ""))))
  {
  }

  /** The form field that carries an item's answer: `item_<id>_<type>`. */
  function AnswerKey(id: Id, t: ItemType): (r: string)
    ensures |r| == 6 + |NatToString(id)| + |t.Code()|
    ensures r[..5] == "item_" && r[5..|r| - |t.Code()| - 1] == NatToString(id)
    ensures r[|r| - |t.Code()| - 1] == '_' && r[|r| - |t.Code()|..] == t.Code()
  {
    "item_" + (NatToString(id) + ("_" + t.Code()))
  }

  /** Each item and type has its own field: no two items, and no two types, share a key. */
  lemma AnswerKeyInjective(i: Id, t: ItemType, j: Id, u: ItemType)
    ensures AnswerKey(i, t) == AnswerKey(j, u) ==> i == j && t == u
  {
    if AnswerKey(i, t) == AnswerKey(j, u) {
      var a, s := NatToString(i), "_" + t.Code();
      var b, w := NatToString(j), "_" + u.Code();
      assert a + s == AnswerKey(i, t)[5..];
      assert b + w == AnswerKey(j, u)[5..];
      DigitPrefixUnique(a, s, b, w);
      NatToStringInjective(i, j);
      assert t.Code() == s[1..] && u.Code() == w[1..];
      ItemTypeCodes(t);
      ItemTypeCodes(u);
    }
  }

  /** A yes/no answer: `"yes"` is true, `"no"` is false, anything else clears it. */
  function YesNoAnswer(v: string): (r: Option<bool>)
    ensures r == Some(true) <==> v == "yes"
    ensures r == Some(false) <==> v == "no"
  {
    if v == "yes" then Some(true) else if v == "no" then Some(false) else None
  }

  /** A numeric answer: empty (after stripping) or unparsable input clears it. */
  function NumberAnswer(v: string, parseDecimal: string -> Option<Decimal>): (r: Option<Decimal>)
    ensures AllSpace(v) ==> r.None?
    ensures !AllSpace(v) ==> r == parseDecimal(Strip(v))
  {
    var s := Strip(v);
    if s == [] then None else parseDecimal(s)
  }

  /** Two items ask the same question about the same thing: only the value slots may differ. */
  predicate SameQuestion(a: ChecklistItem, b: ChecklistItem) {
    && a.id == b.id && a.asset == b.asset && a.templateItem == b.templateItem
    && a.labelSnapshot == b.labelSnapshot && a.itemType == b.itemType
    && a.required == b.required && a.unit == b.unit
  }

  /**
   * One item after `save_answers`: the value slot its type selects is set
   * from that type's field, every other field is as before.
   */
  function Answered(item: ChecklistItem, form: Form, files: Files, parseDecimal: string -> Option<Decimal>)
    : (r: ChecklistItem)
    ensures SameQuestion(r, item)
    ensures item.itemType != "yesno" ==> r.valueBool == item.valueBool
    ensures item.itemType != "number" ==> r.valueNumber == item.valueNumber
    ensures item.itemType != "text" ==> r.valueText == item.valueText
    ensures item.itemType != "photo" ==> r.attachment == item.attachment
    ensures item.itemType == "yesno" ==> r.valueBool == YesNoAnswer(Get(form, AnswerKey(item.id, YesNo), ""))
    ensures item.itemType == "number" ==>
              r.valueNumber == NumberAnswer(Get(form, AnswerKey(item.id, Number), ""), parseDecimal)
    ensures item.itemType == "text" ==> r.valueText == Strip(Get(form, AnswerKey(item.id, Text), ""))
    ensures item.itemType == "photo" && AnswerKey(item.id, Photo) !in files ==> r.attachment == item.attachment
    ensures item.itemType == "photo" && AnswerKey(item.id, Photo) in files ==>
              r.attachment == Some(files[AnswerKey(item.id, Photo)])
  {
    if item.itemType == "yesno" then
      item.(valueBool := YesNoAnswer(Get(form, AnswerKey(item.id, YesNo), "")))
    else if item.itemType == "number" then
      item.(valueNumber := NumberAnswer(Get(form, AnswerKey(item.id, Number), ""), parseDecimal))
    else if item.itemType == "text" then
      item.(valueText := Strip(Get(form, AnswerKey(item.id, Text), "")))
    else if item.itemType == "photo" && AnswerKey(item.id, Photo) in files then
      item.(attachment := Some(files[AnswerKey(item.id, Photo)]))
    else item
  }

  /** Recording answers keeps every value outside the item's own slot empty. */
  lemma AnsweredKeepsSlots(item: ChecklistItem, form: Form, files: Files,
                           parseDecimal: string -> Option<Decimal>)
    requires SlotsMatchType(item)
    ensures SlotsMatchType(Answered(item, form, files, parseDecimal))
  {
  }

  /** Rendering appends the unit, after a space, only when there is one. */
  function UnitSuffix(unit: string): (r: string)
    ensures unit == "" ==> r == ""
    ensures unit != "" ==> r == " " + unit
  {
    if unit != "" then " " + unit else ""
  }

  /** A stored file counts as attached when it has a name (a `FieldFile` is truthy). */
  function HasAttachment(item: ChecklistItem): (r: bool)
    ensures item.attachment.None? ==> !r
    ensures item.attachment == Some("") ==> !r
    ensures item.attachment.Some? && item.attachment.value != "" ==> r
  {
    item.attachment.Some? && item.attachment.value != ""
  }

  /**
   * `_format_task_item_answer`: `SI`/`NO` for yes/no, the number and its
   * unit, `Foto allegata` for an attached photo, the text otherwise, and
   * `-` for every missing answer.
   */
  function FormatAnswer(item: ChecklistItem, showDecimal: Decimal -> string): (r: string)
    ensures Unanswered(item) ==> r == "-"
    ensures item.itemType == "yesno" ==>
              && (r == "SI" <==> item.valueBool == Some(true))
              && (r == "NO" <==> item.valueBool == Some(false))
              && (r == "-" <==> item.valueBool.None?)
    ensures item.itemType == "number" && item.valueNumber.None? ==> r == "-"
    ensures item.itemType == "number" && item.valueNumber.Some? ==>
              r == showDecimal(item.valueNumber.value) + UnitSuffix(item.unit)
    ensures item.itemType == "photo" ==> (r == "Foto allegata" <==> HasAttachment(item))
    ensures item.itemType == "photo" ==> (r == "-" <==> !HasAttachment(item))
    ensures item.itemType !in {"yesno", "number", "photo"} ==>
              (if item.valueText == "" then r == "-" else r == item.valueText)
  {
    if item.itemType == "yesno" then
      match item.valueBool
      case Some(true) => "SI"
      case Some(false) => "NO"
      case None => "-"
    else if item.itemType == "number" then
      match item.valueNumber
      case None => "-"
      case Some(n) => showDecimal(n) + UnitSuffix(item.unit)
    else if item.itemType == "photo" then
      if HasAttachment(item) then "Foto allegata" else "-"
    else if item.valueText == "" then "-"
    else item.valueText
  }

  /**
   * What the report shows for an answer just recorded: `SI`/`NO`/`-` from
   * the yes/no field, `-` for a blank or unparsable number, the stripped
   * text or `-`, and an untouched photo rendering when nothing was uploaded.
   */
  lemma RenderSavedAnswer(item: ChecklistItem, form: Form, files: Files,
                          parseDecimal: string -> Option<Decimal>, showDecimal: Decimal -> string)
    ensures var saved := Answered(item, form, files, parseDecimal);
            var shown := FormatAnswer(saved, showDecimal);
            && (item.itemType == "yesno" ==>
                  var v := Get(form, AnswerKey(item.id, YesNo), "");
                  shown == (if v == "yes" then "SI" else if v == "no" then "NO" else "-"))
            && (item.itemType == "number" ==>
                  var v := Get(form, AnswerKey(item.id, Number), "");
                  (AllSpace(v) || parseDecimal(Strip(v)).None?) ==> shown == "-")
            && (item.itemType == "text" ==>
                  var v := Strip(Get(form, AnswerKey(item.id, Text), ""));
                  shown == (if v == "" then "-" else v))
            && (item.itemType == "photo" && AnswerKey(item.id, Photo) !in files ==>
                  shown == FormatAnswer(item, showDecimal))
  {
  }
}
