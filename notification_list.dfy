/**
 * The notifications page in the browser: the read/unread tabs, their
 * counts, where each notification links to, and the read toggle.
 */
module NotificationList {
  import opened Basics
  import opened Domain
  import Db

  /** A notification as the page receives it: the type is free text. */
  datatype Item = Item(id: Id, message: string, read: bool, kind: string, relatedId: Option<Id>, createdAt: Time)

  function AsItem(n: Notification): (r: Item)
    ensures r.id == n.id && r.read == n.read && r.kind == TypeName(n.kind) && r.relatedId == n.relatedId
  {
    Item(n.id, n.message, n.read, TypeName(n.kind), n.relatedId, n.createdAt)
  }

  /** The filter of a tab; "all" and any unknown tab keep everything. */
  function TabFilter(tab: string): Item -> bool {
    if tab == "unread" then (n: Item) => !n.read
    else if tab == "read" then (n: Item) => n.read
    else (n: Item) => true
  }

  function FilterTab(items: seq<Item>, tab: string): (r: seq<Item>)
    ensures tab == "unread" ==> forall n :: n in r <==> n in items && !n.read
    ensures tab == "read" ==> forall n :: n in r <==> n in items && n.read
    ensures tab != "unread" && tab != "read" ==> r == items
    ensures tab == "unread" ==> forall n :: multiset(r)[n] == if !n.read then multiset(items)[n] else 0
    ensures tab == "read" ==> forall n :: multiset(r)[n] == if n.read then multiset(items)[n] else 0
  {
    TabFilterFacts(items, tab);
    forall n ensures multiset(Filter(items, TabFilter(tab)))[n] == if TabFilter(tab)(n) then multiset(items)[n] else 0 {
      FilterMultiset(items, TabFilter(tab), n);
    }
    Filter(items, TabFilter(tab))
  }

  lemma TabFilterFacts(items: seq<Item>, tab: string)
    ensures forall n :: n in Filter(items, TabFilter(tab)) <==> n in items && TabFilter(tab)(n)
    ensures tab != "unread" && tab != "read" ==> Filter(items, TabFilter(tab)) == items
  {
    forall n ensures n in Filter(items, TabFilter(tab)) <==> n in items && TabFilter(tab)(n) {
      FilterMembership(items, TabFilter(tab), n);
    }
    if tab != "unread" && tab != "read" {
      FilterAll(items, TabFilter(tab));
    }
  }

  /** A tab keeps the page's order: filtering a concatenation concatenates the filtered parts. */
  lemma TabKeepsOrder(a: seq<Item>, b: seq<Item>, tab: string)
    ensures FilterTab(a + b, tab) == FilterTab(a, tab) + FilterTab(b, tab)
  {
    FilterAppend(a, b, TabFilter(tab));
  }

  /** The unread and read tab counts add up to the "all" count. */
  lemma TabCountsAddUp(items: seq<Item>)
    ensures |FilterTab(items, "unread")| + |FilterTab(items, "read")| == |FilterTab(items, "all")|
  {
    FilterPartition(items, TabFilter("unread"), TabFilter("read"));
  }

  /** `getNotificationLink`: task notifications open their task, messages open the inbox. */
  function NotificationLink(n: Item): (r: string)
    ensures n.kind in {"task_assigned", "task_completed", "evidence_uploaded", "comment_added"} ==>
      r == if n.relatedId.Some? && n.relatedId.value != "" then "/dashboard/tasks/" + n.relatedId.value else "/dashboard/tasks"
    ensures n.kind == "message_received" ==> r == "/dashboard/messages"
    ensures r == "#" <==> n.kind !in {"task_assigned", "task_completed", "evidence_uploaded", "comment_added", "message_received"}
  {
    if n.kind in {"task_assigned", "task_completed", "evidence_uploaded", "comment_added"} then
      if n.relatedId.Some? && n.relatedId.value != "" then "/dashboard/tasks/" + n.relatedId.value else "/dashboard/tasks"
    else if n.kind == "message_received" then "/dashboard/messages"
    else "#"
  }

  /** Every notification the server writes links somewhere: only foreign types fall back to "#". */
  lemma StoredTypesAlwaysLink(n: Notification)
    ensures NotificationLink(AsItem(n)) != "#"
    ensures n.kind == TaskAssigned && n.relatedId.Some? && n.relatedId.value != "" ==>
      NotificationLink(AsItem(n)) == "/dashboard/tasks/" + n.relatedId.value
  {
  }

  /** The toggle asks for the opposite of the current flag. */
  function ToggleRequest(n: Item): (r: (Id, bool))
    ensures r.0 == n.id && r.1 != n.read
  {
    (n.id, !n.read)
  }

  /**
   * Toggling a stored notification twice, through the endpoint's update,
   * leaves the table as it was.
   */
  lemma ToggleTwiceRestores(ns: seq<Notification>, i: nat)
    requires i < |ns| && Db.Distinct(ns, Db.NotificationKey)
    ensures var first := ToggleRequest(AsItem(ns[i]));
      var after := Db.WithRead(ns, first.0, first.1);
      var second := ToggleRequest(AsItem(after[i]));
      Db.WithRead(after, second.0, second.1) == ns
  {
    var id := ns[i].id;
    var after := Db.WithRead(ns, id, !ns[i].read);
    var back := Db.WithRead(after, id, ns[i].read);
    forall j | 0 <= j < |ns| ensures back[j] == ns[j] {
      assert ns[j].id == id ==> j == i;
    }
  }
}
