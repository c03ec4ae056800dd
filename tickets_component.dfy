/** The ticket list component of the Angular front end: who may edit a listed ticket,
    the CSS class of a priority or status badge, and the filter object it sends when it
    loads tickets. Roles, statuses and priorities are the strings the API sends
    ("ADMIN", "AGENT", "USER"; "OPEN", "IN_PROGRESS", "RESOLVED", "CLOSED"; "HIGH",
    "MEDIUM", "LOW"), so a value outside those sets can reach the component. */
module TicketsView {
  import opened Domain

  /** The fields of the signed-in user that the edit rule reads. */
  datatype Viewer = Viewer(id: int, role: string)

  /** The fields of a listed ticket that the edit rule reads. */
  datatype ListedTicket = ListedTicket(id: int, createdById: int, assignedToId: Option<int>, status: string)

  /** A filter value, of the type its field holds. */
  datatype FilterValue =
    | Statuses(statuses: seq<string>)
    | Priorities(priorities: seq<string>)
    | Id(id: int)
    | Term(term: string)

  /** The component's six filter fields; `None` is null. */
  datatype Filters = Filters(
    status: Option<seq<string>>, priority: Option<seq<string>>, categoryId: Option<int>,
    assignedToId: Option<int>, createdById: Option<int>, searchTerm: Option<string>)

  const ClearedFilters := Filters(None, None, None, None, None, None)

  function IdValue(x: Option<int>): Option<FilterValue> {
    if x.Some? then Some(Id(x.value)) else None
  }

  /** `Object.entries(filters)`: the six fields in declaration order. */
  function Entries(f: Filters): (es: seq<(string, Option<FilterValue>)>)
    ensures |es| == 6
  {
    [ ("status", if f.status.Some? then Some(Statuses(f.status.value)) else None),
      ("priority", if f.priority.Some? then Some(Priorities(f.priority.value)) else None),
      ("categoryId", IdValue(f.categoryId)),
      ("assignedToId", IdValue(f.assignedToId)),
      ("createdById", IdValue(f.createdById)),
      ("searchTerm", if f.searchTerm.Some? then Some(Term(f.searchTerm.value)) else None) ]
  }

  /** The entries whose value is not null, in their order, with the value unwrapped. */
  function NonNull(es: seq<(string, Option<FilterValue>)>): (r: seq<(string, FilterValue)>)
    ensures |r| <= |es|
  {
    if es == [] then []
    else
      var last := es[|es| - 1];
      NonNull(es[..|es| - 1]) + (if last.1.Some? then [(last.0, last.1.value)] else [])
  }

  /** An entry is kept exactly when its value is not null. */
  lemma {:induction false} NonNullMembers(es: seq<(string, Option<FilterValue>)>)
    ensures forall k, v :: (k, v) in NonNull(es) <==> (k, Some(v)) in es
  {
    if es != [] {
      var init := es[..|es| - 1];
      NonNullMembers(init);
      assert es == init + [es[|es| - 1]];
    }
  }

  /** A list of null entries keeps nothing. */
  lemma {:induction false} NonNullOfNulls(es: seq<(string, Option<FilterValue>)>)
    requires forall i | 0 <= i < |es| :: es[i].1.None?
    ensures NonNull(es) == []
  {
    if es != [] {
      NonNullOfNulls(es[..|es| - 1]);
    }
  }

  /** The filter object `loadTickets` sends holds a list field exactly when the field is
      not null, with the field's value; a cleared filter sends an empty object. */
  lemma {:induction false} ActiveListFields(f: Filters)
    ensures var active := NonNull(Entries(f));
      && (forall v :: ("status", v) in active <==> f.status.Some? && v == Statuses(f.status.value))
      && (forall v :: ("priority", v) in active <==> f.priority.Some? && v == Priorities(f.priority.value))
      && (forall v :: ("searchTerm", v) in active <==> f.searchTerm.Some? && v == Term(f.searchTerm.value))
    ensures NonNull(Entries(ClearedFilters)) == []
  {
    NonNullMembers(Entries(f));
    NonNullOfNulls(Entries(ClearedFilters));
  }

  /** The same for the id fields; and no other key is ever sent. */
  lemma {:induction false} ActiveIdFields(f: Filters)
    ensures var active := NonNull(Entries(f));
      && (forall v :: ("categoryId", v) in active <==> f.categoryId.Some? && v == Id(f.categoryId.value))
      && (forall v :: ("assignedToId", v) in active <==> f.assignedToId.Some? && v == Id(f.assignedToId.value))
      && (forall v :: ("createdById", v) in active <==> f.createdById.Some? && v == Id(f.createdById.value))
      && (forall k, v :: (k, v) in active ==>
            k in ["status", "priority", "categoryId", "assignedToId", "createdById", "searchTerm"])
  {
    NonNullMembers(Entries(f));
  }

  class TicketsComponent {
    var currentUser: Option<Viewer>
    var filters: Filters
    var loading: bool
    var error: Option<string>

    /** No one signed in, no filter, nothing loading. */
    constructor ()
      ensures currentUser.None? && filters == ClearedFilters && !loading && error.None?
    {
      currentUser := None;
      filters := ClearedFilters;
      loading := false;
      error := None;
    }

    /** `canEditTicket`: an admin may edit every ticket, an agent the tickets assigned
        to them and the unassigned ones, a user the tickets they created that are
        neither closed nor resolved; nobody else may edit anything. */
    function CanEditTicket(t: ListedTicket): (r: bool)
      reads this`currentUser
      ensures r ==> currentUser.Some? && currentUser.value.role in {"ADMIN", "AGENT", "USER"}
      ensures currentUser.Some? && currentUser.value.role == "ADMIN" ==> r
      ensures currentUser.Some? && currentUser.value.role == "AGENT" ==>
        (r <==> t.assignedToId == Some(currentUser.value.id) || !Truthy(t.assignedToId))
      ensures currentUser.Some? && currentUser.value.role == "USER" ==>
        (r <==> t.createdById == currentUser.value.id && t.status != "CLOSED" && t.status != "RESOLVED")
    {
      if currentUser.None? then false
      else if currentUser.value.role == "ADMIN" then true
      else if currentUser.value.role == "AGENT" then
        t.assignedToId == Some(currentUser.value.id) || !Truthy(t.assignedToId)
      else if currentUser.value.role == "USER" then
        t.createdById == currentUser.value.id && t.status !in ["CLOSED", "RESOLVED"]
      else false
    }

    /** A closed or resolved ticket can be edited by an admin or an agent only, and a
        ticket assigned to someone else by an admin or its creator only. */
    lemma {:induction false} EditLocks(t: ListedTicket)
      ensures t.status in {"CLOSED", "RESOLVED"} && CanEditTicket(t) ==>
        currentUser.value.role in {"ADMIN", "AGENT"}
      ensures Truthy(t.assignedToId) && CanEditTicket(t) && t.assignedToId != Some(currentUser.value.id) ==>
        currentUser.value.role == "ADMIN" || (currentUser.value.role == "USER" && t.createdById == currentUser.value.id)
    {
      if CanEditTicket(t) {
        assert currentUser.Some?;
      }
    }

    /** `getPriorityClass`: the badge class of each known priority, `''` for anything else. */
    function GetPriorityClass(priority: string): (r: string)
      ensures r == "" <==> priority !in {"HIGH", "MEDIUM", "LOW"}
      ensures priority == "HIGH" ==> r == "priority-high"
      ensures priority == "MEDIUM" ==> r == "priority-medium"
      ensures priority == "LOW" ==> r == "priority-low"
    {
      match priority
      case "HIGH" => "priority-high"
      case "MEDIUM" => "priority-medium"
      case "LOW" => "priority-low"
      case _ => ""
    }

    /** `getStatusClass`: the badge class of each known status, `''` for anything else. */
    function GetStatusClass(status: string): (r: string)
      ensures r == "" <==> status !in {"OPEN", "IN_PROGRESS", "RESOLVED", "CLOSED"}
      ensures status == "OPEN" ==> r == "status-open"
      ensures status == "IN_PROGRESS" ==> r == "status-progress"
      ensures status == "RESOLVED" ==> r == "status-resolved"
      ensures status == "CLOSED" ==> r == "status-closed"
    {
      match status
      case "OPEN" => "status-open"
      case "IN_PROGRESS" => "status-progress"
      case "RESOLVED" => "status-resolved"
      case "CLOSED" => "status-closed"
      case _ => ""
    }

    /** The `activeFilters` object `loadTickets` builds: each entry of `filters` in
        turn, kept when its value is not null. */
    method ActiveFilters() returns (active: seq<(string, FilterValue)>)
      ensures active == NonNull(Entries(filters))
    {
      var entries := Entries(filters);
      active := [];
      var i := 0;
      while i < |entries|
        invariant 0 <= i <= |entries|
        invariant active == NonNull(entries[..i])
      {
        var (key, value) := entries[i];
        assert entries[..i + 1][..i] == entries[..i];
        if value.Some? {
          active := active + [(key, value.value)];
        }
        i := i + 1;
      }
      assert entries[..i] == entries;
    }

    /** `loadTickets`: marks the list as loading, clears the error and returns the
        filter object it requests tickets with. */
    method LoadTickets() returns (sent: seq<(string, FilterValue)>)
      modifies this`loading, this`error
      ensures loading && error.None?
      ensures sent == NonNull(Entries(filters))
    {
      loading := true;
      error := None;
      sent := ActiveFilters();
    }

    /** `resetFilters`: every filter field null, then a reload with no filter. */
    method ResetFilters() returns (sent: seq<(string, FilterValue)>)
      modifies this`filters, this`loading, this`error
      ensures filters == ClearedFilters && loading && error.None?
      ensures sent == []
    {
      filters := ClearedFilters;
      sent := LoadTickets();
      NonNullOfNulls(Entries(ClearedFilters));
    }
  }
}
