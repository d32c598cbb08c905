/**
 * A maintenance task as an object whose fields the request handlers
 * update in place: its lifecycle fields, its checklist items and the
 * operations of the task page, the dashboard and the task-creation form.
 */
module Tasks {
  import opened Wrappers
  import opened PyStr
  import opened Models
  import opened Checklist
  import opened Lifecycle

  predicate IdsIncreasing(s: seq<ChecklistItem>) {
    forall i, j :: 0 <= i < j < |s| ==> s[i].id < s[j].id
  }

  predicate IdsBelow(s: seq<ChecklistItem>, n: int) {
    forall i :: 0 <= i < |s| ==> s[i].id < n
  }

  predicate AllSlotsMatchType(s: seq<ChecklistItem>) {
    forall i :: 0 <= i < |s| ==> SlotsMatchType(s[i])
  }

  predicate IdsFrom(s: seq<ChecklistItem>, n: int) {
    forall i :: 0 <= i < |s| ==> n <= s[i].id
  }

  /** Appending items numbered past every existing id keeps the ids increasing. */
  lemma AppendKeepsIds(s: seq<ChecklistItem>, b: seq<ChecklistItem>, n: int, m: int)
    requires IdsIncreasing(s) && IdsBelow(s, n)
    requires IdsIncreasing(b) && IdsFrom(b, n) && IdsBelow(b, m) && n <= m
    ensures IdsIncreasing(s + b) && IdsBelow(s + b, m)
  {
    var t := s + b;
    forall i, j | 0 <= i < j < |t| ensures t[i].id < t[j].id {
      if j < |s| {
      } else if i < |s| {
        assert t[i] == s[i] && t[j] == b[j - |s|];
      } else {
        assert t[i] == b[i - |s|] && t[j] == b[j - |s|];
      }
    }
  }

  /** Appending one item that takes the next id keeps the ids increasing. */
  lemma AppendOneKeepsIds(s: seq<ChecklistItem>, x: ChecklistItem, n: int)
    requires IdsIncreasing(s) && IdsBelow(s, n) && x.id == n
    ensures IdsIncreasing(s + [x]) && IdsBelow(s + [x], n + 1)
  {
    AppendKeepsIds(s, [x], n, n + 1);
  }

  /** Replacing one item by one with the same id and well-filled slots keeps the item invariant. */
  lemma ReplaceKeepsItems(s: seq<ChecklistItem>, i: int, x: ChecklistItem, n: int)
    requires 0 <= i < |s| && x.id == s[i].id && SlotsMatchType(x)
    requires IdsIncreasing(s) && IdsBelow(s, n) && AllSlotsMatchType(s)
    ensures IdsIncreasing(s[i := x]) && IdsBelow(s[i := x], n) && AllSlotsMatchType(s[i := x])
  {
  }

  /** Snapshots are numbered consecutively from the first id. */
  lemma SnapshotIds(items: seq<TemplateItem>, firstId: Id, asset: Option<Id>)
    ensures var b := Snapshots(items, firstId, asset);
            IdsIncreasing(b) && IdsFrom(b, firstId) && IdsBelow(b, firstId + |items|)
  {
  }

  /** The loop of `_create_checklist_from_template` that builds the unsaved items. */
  method SnapshotBatch(ordered: seq<TemplateItem>, firstId: Id, asset: Option<Id>)
    returns (batch: seq<ChecklistItem>)
    ensures batch == Snapshots(ordered, firstId, asset)
  {
    batch := [];
    for k := 0 to |ordered|
      invariant |batch| == k
      invariant forall j :: 0 <= j < k ==> batch[j] == Snapshot(ordered[j], firstId + j, asset)
    {
      batch := batch + [Snapshot(ordered[k], firstId + k, asset)];
    }
  }

  class Task {
    const id: Id
    const site: Id
    const title: string
    const scheduledFor: Time
    const notes: string
    var status: TaskStatus
    var completedAt: Option<Time>
    var report: Option<Report>
    /** The task's checklist items, in creation (id) order. */
    var items: seq<ChecklistItem>
    /** The next id the database will hand to a new checklist item. */
    var nextItemId: Id

    /**
     * Item ids increase along the list and are all below the next id handed
     * out; every item holds a value only in the slot its type selects.
     */
    ghost predicate Valid()
      reads this
    {
      IdsIncreasing(items) && IdsBelow(items, nextItemId) && AllSlotsMatchType(items)
    }

    function LifecycleState(): State
      reads this
    {
      State(status, completedAt, report)
    }

    /** `MaintenanceTask.objects.create(...)`: no completion instant, no report, no items. */
    constructor (id: Id, site: Id, title: string, scheduledFor: Time, status: TaskStatus,
                 notes: string, firstItemId: Id)
      ensures Valid()
      ensures this.id == id && this.site == site && this.title == title
      ensures this.scheduledFor == scheduledFor && this.notes == notes
      ensures this.status == status && completedAt.None? && report.None?
      ensures items == [] && nextItemId == firstItemId
    {
      this.id := id;
      this.site := site;
      this.title := title;
      this.scheduledFor := scheduledFor;
      this.notes := notes;
      this.status := status;
      completedAt := None;
      report := None;
      items := [];
      nextItemId := firstItemId;
    }

    /** The dashboard's `start_task` action. */
    method Start()
      modifies this`status
      ensures LifecycleState() == Started(old(LifecycleState()))
    {
      if status == Scheduled || status == InProgress {
        status := InProgress;
      }
    }

    /** The task page's `update_task` action. */
    method UpdateStatus(form: Form, now: Time)
      modifies this`status, this`completedAt
      ensures LifecycleState() ==
              StatusUpdated(old(LifecycleState()), ParseTaskStatus(Strip(Get(form, "status", ""))), now)
    {
      var next := ParseTaskStatus(Strip(Get(form, "status", "")));
      ApplyStatus(next, now);
    }

    /** The status change of `update_task` once the submitted code has been checked. */
    method ApplyStatus(next: Option<TaskStatus>, now: Time)
      modifies this`status, this`completedAt
      ensures LifecycleState() == StatusUpdated(old(LifecycleState()), next, now)
    {
      if next.Some? {
        var wasDone := status == Done;
        status := next.value;
        if next.value == Done && (!wasDone || completedAt.None?) {
          completedAt := Some(now);
        }
      }
    }

    /**
     * `_create_checklist_from_template`: appends one snapshot per template
     * item, in (order, id) order, all tagged with `asset`; existing items
     * stay as they are.
     */
    method InstantiateTemplate(template: Template, asset: Option<Id>)
      requires Valid()
      modifies this`items, this`nextItemId
      ensures Valid()
      ensures items == old(items) + Snapshots(OrderedItems(template.items), old(nextItemId), asset)
      ensures nextItemId == old(nextItemId) + |template.items|
    {
      var ordered := OrderedItems(template.items);
      var batch := SnapshotBatch(ordered, nextItemId, asset);
      SnapshotIds(ordered, nextItemId, asset);
      AppendKeepsIds(items, batch, nextItemId, nextItemId + |batch|);
      if batch != [] {
        items := items + batch;
        nextItemId := nextItemId + |batch|;
      }
    }

    /**
     * The task page's `generate_checklist` action. A missing template is
     * "not found"; the template's site scope is not checked here.
     */
    method GenerateChecklist(templateId: Option<Id>, templates: map<Id, Template>,
                             assetId: Option<Id>, assets: map<Id, Asset>)
      returns (notFound: bool)
      requires Valid()
      modifies this`items, this`nextItemId
      ensures Valid()
      ensures notFound <==> templateId.Some? && templateId.value !in templates
      ensures templateId.Some? && !notFound ==>
                items == old(items) + Snapshots(OrderedItems(templates[templateId.value].items),
                                                old(nextItemId), SiteAsset(assets, assetId, site))
      ensures templateId.Some? && !notFound ==>
                nextItemId == old(nextItemId) + |templates[templateId.value].items|
      ensures templateId.None? || notFound ==> items == old(items) && nextItemId == old(nextItemId)
    {
      notFound := false;
      if templateId.Some? {
        if templateId.value !in templates {
          notFound := true;
          return;
        }
        var template := templates[templateId.value];
        var asset := SiteAsset(assets, assetId, site);
        InstantiateTemplate(template, asset);
      }
    }

    /** Stores one new item under the next id. */
    method AppendItem(item: ChecklistItem)
      requires Valid() && item.id == nextItemId && SlotsMatchType(item)
      modifies this`items, this`nextItemId
      ensures Valid()
      ensures items == old(items) + [item] && nextItemId == old(nextItemId) + 1
    {
      AppendOneKeepsIds(items, item, nextItemId);
      items := items + [item];
      nextItemId := nextItemId + 1;
    }

    /** The task page's `add_checklist_item` action. */
    method AddChecklistItem(form: Form, assetId: Option<Id>, assets: map<Id, Asset>)
      requires Valid()
      modifies this`items, this`nextItemId
      ensures Valid()
      ensures var made := AdHocItem(form, old(nextItemId), SiteAsset(assets, assetId, site));
              && items == old(items) + (if made.Some? then [made.value] else [])
              && nextItemId == old(nextItemId) + (if made.Some? then 1 else 0)
    {
      var text := Strip(Get(form, "label", ""));
      var t := ItemTypeOrDefault(Get(form, "item_type", "yesno"));
      var required := Get(form, "required", "") == "on";
      var unit := Strip(Get(form, "unit", ""));
      AppendAdHoc(text, t, required, unit, SiteAsset(assets, assetId, site));
      AdHocItemOfFields(form, old(nextItemId), SiteAsset(assets, assetId, site));
    }

    /** `add_checklist_item` once the form is read: stores the item unless the label is empty. */
    method AppendAdHoc(text: string, t: ItemType, required: bool, unit: string, asset: Option<Id>)
      requires Valid()
      modifies this`items, this`nextItemId
      ensures Valid()
      ensures items == old(items) +
                if text == [] then [] else [NewChecklistItem(old(nextItemId), asset, None, text, t.Code(), required, unit)]
      ensures nextItemId == old(nextItemId) + if text == [] then 0 else 1
    {
      if text != [] {
        AppendItem(NewChecklistItem(nextItemId, asset, None, text, t.Code(), required, unit));
      }
    }

    /** The `save_answers` loop: every item records its own answer and is saved. */
    method SaveAnswers(form: Form, files: Files, parseDecimal: string -> Option<Decimal>)
      requires Valid()
      modifies this`items
      ensures Valid()
      ensures |items| == |old(items)|
      ensures forall i :: 0 <= i < |items| ==> items[i] == Answered(old(items)[i], form, files, parseDecimal)
    {
      for i := 0 to |items|
        invariant Valid()
        invariant |items| == |old(items)|
        invariant forall j :: 0 <= j < i ==> items[j] == Answered(old(items)[j], form, files, parseDecimal)
        invariant forall j :: i <= j < |items| ==> items[j] == old(items)[j]
      {
        var answered := Answered(items[i], form, files, parseDecimal);
        AnsweredKeepsSlots(items[i], form, files, parseDecimal);
        ReplaceKeepsItems(items, i, answered, nextItemId);
        items := items[i := answered];
      }
    }

    /** "Close task": stamp, build and store the report, mark `done`. */
    method Close(now: Time, generatedAt: Time, file: FileRef, showDecimal: Decimal -> string)
      modifies this`status, this`completedAt, this`report
      ensures LifecycleState() == Closed(old(LifecycleState()), items, now, generatedAt, file, showDecimal)
    {
      if status != Done || completedAt.None? {
        completedAt := Some(now);
      }
      report := Some(Report(file, status, completedAt, generatedAt, Entries(items, showDecimal)));
      status := Done;
    }

    /** The task page's `save_answers` action, closing the task when `close_task` is `"1"`. */
    method SubmitAnswers(form: Form, files: Files, now: Time, generatedAt: Time, file: FileRef,
                         parseDecimal: string -> Option<Decimal>, showDecimal: Decimal -> string)
      returns (closed: bool)
      requires Valid()
      modifies this`items, this`status, this`completedAt, this`report
      ensures Valid()
      ensures closed <==> Get(form, "close_task", "") == "1"
      ensures |items| == |old(items)|
      ensures forall i :: 0 <= i < |items| ==> items[i] == Answered(old(items)[i], form, files, parseDecimal)
      ensures closed ==>
                LifecycleState() == Closed(old(LifecycleState()), items, now, generatedAt, file, showDecimal)
      ensures !closed ==> LifecycleState() == old(LifecycleState())
    {
      SaveAnswers(form, files, parseDecimal);
      closed := Get(form, "close_task", "") == "1";
      if closed {
        Close(now, generatedAt, file, showDecimal);
      }
    }
  }

  /**
   * The task list's `create_task` action. Nothing happens without a title
   * and a site; an unknown site is "not found". Once the task exists, an
   * unknown template is "not found" too, but the task stays created; a
   * template scoped to another site is dropped silently.
   */
  method CreateTask(form: Form, siteId: Option<Id>, sites: set<Id>, taskId: Id, scheduledFor: Time,
                    templateId: Option<Id>, templates: map<Id, Template>,
                    assetId: Option<Id>, assets: map<Id, Asset>, firstItemId: Id)
    returns (task: Task?, notFound: bool)
    ensures AllSpace(Get(form, "title", "")) || siteId.None? ==> task == null && !notFound
    ensures !AllSpace(Get(form, "title", "")) && siteId.Some? && siteId.value !in sites ==>
              task == null && notFound
    ensures !AllSpace(Get(form, "title", "")) && siteId.Some? && siteId.value in sites ==> task != null
    ensures task != null ==>
              && fresh(task) && task.Valid()
              && task.id == taskId && siteId == Some(task.site)
              && task.title == Strip(Get(form, "title", "")) && task.title != ""
              && task.notes == Strip(Get(form, "notes", "")) && task.scheduledFor == scheduledFor
              && task.status == InitialStatus(Get(form, "status", "scheduled"))
              && task.completedAt.None? && task.report.None?
              && (notFound <==> templateId.Some? && templateId.value !in templates)
    ensures task != null ==>
              task.items ==
                if templateId.Some? && templateId.value in templates
                   && ScopeAllows(templates[templateId.value], task.site)
                then Snapshots(OrderedItems(templates[templateId.value].items), firstItemId,
                               SiteAsset(assets, assetId, task.site))
                else []
  {
    task, notFound := null, false;
    var title := Strip(Get(form, "title", ""));
    if title == [] || siteId.None? {
      return;
    }
    if siteId.value !in sites {
      notFound := true;
      return;
    }
    var status := InitialStatus(Get(form, "status", "scheduled"));
    var notes := Strip(Get(form, "notes", ""));
    task, notFound := OpenTask(taskId, siteId.value, title, scheduledFor, status, notes,
                               templateId, templates, assetId, assets, firstItemId);
  }

  /**
   * `create_task` once the form is read: the new task, then the checklist
   * of a template in scope; an unknown template is "not found".
   */
  method OpenTask(taskId: Id, site: Id, title: string, scheduledFor: Time, status: TaskStatus, notes: string,
                  templateId: Option<Id>, templates: map<Id, Template>,
                  assetId: Option<Id>, assets: map<Id, Asset>, firstItemId: Id)
    returns (task: Task, notFound: bool)
    ensures fresh(task) && task.Valid()
    ensures task.id == taskId && task.site == site && task.title == title && task.notes == notes
    ensures task.scheduledFor == scheduledFor && task.status == status
    ensures task.completedAt.None? && task.report.None?
    ensures notFound <==> templateId.Some? && templateId.value !in templates
    ensures task.items ==
              if templateId.Some? && templateId.value in templates && ScopeAllows(templates[templateId.value], site)
              then Snapshots(OrderedItems(templates[templateId.value].items), firstItemId,
                             SiteAsset(assets, assetId, site))
              else []
  {
    notFound := false;
    task := new Task(taskId, site, title, scheduledFor, status, notes, firstItemId);
    if templateId.Some? {
      if templateId.value !in templates {
        notFound := true;
        return;
      }
      var template := templates[templateId.value];
      if ScopeAllows(template, site) {
        task.InstantiateTemplate(template, SiteAsset(assets, assetId, site));
      }
    }
  }
}
