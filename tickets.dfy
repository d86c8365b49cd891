/**
 * The ticket moderation page: loading all tickets and splitting them by `estado`
 * into open and closed lists, closing the selected ticket, and choosing the list the
 * current tab shows.
 */
module Tickets {

  import opened Wrappers
  import opened Js
  import opened Http
  import opened Seqs

  const OpenState := Str("ABIERTO")
  const ClosedState := Str("CERRADO")

  /** `ticket.estado === 'ABIERTO'`. */
  predicate IsOpen(ticket: JsValue)
    ensures IsOpen(ticket) ==> ticket.Obj? && "estado" in ticket.fields
  {
    Get(ticket, "estado") == OpenState
  }

  /** `ticket.estado === 'CERRADO'`. */
  predicate IsClosed(ticket: JsValue)
    ensures IsClosed(ticket) ==> ticket.Obj? && "estado" in ticket.fields
  {
    Get(ticket, "estado") == ClosedState
  }

  /**
   * The lists `load` computes from the fetched data: `tickets = allTickets || []` and
   * two filters on `estado`. `None` when a step throws: the data is truthy but not an
   * array (it has no `filter`), or an element is `null` (reading its `estado` fails).
   */
  function Partition(data: JsValue): (lists: Option<(seq<JsValue>, seq<JsValue>)>)
    ensures lists.Some? <==>
              !Truthy(data) || (data.Arr? && forall i :: 0 <= i < |data.elems| ==> !Nullish(data.elems[i]))
    ensures !Truthy(data) ==> lists == Some(([], []))
  {
    var tickets := Or(data, Arr([]));
    if !tickets.Arr? then None
    else if exists i :: 0 <= i < |tickets.elems| && Nullish(tickets.elems[i]) then None
    else Some((Filter(tickets.elems, IsOpen), Filter(tickets.elems, IsClosed)))
  }

  /**
   * With an array of tickets, the open list holds exactly the tickets marked `ABIERTO`
   * and the closed list those marked `CERRADO`, each in the fetched order, duplicates
   * kept; the lists share no ticket and a ticket in any other state is in neither.
   */
  lemma PartitionSplitsByState(data: JsValue)
    requires data.Arr? && Partition(data).Some?
    ensures var (open, closed) := Partition(data).value;
            IsSubsequence(open, data.elems) && IsSubsequence(closed, data.elems) &&
            (forall t :: t in open <==> t in data.elems && IsOpen(t)) &&
            (forall t :: t in closed <==> t in data.elems && IsClosed(t)) &&
            (forall t :: multiset(open)[t] == if IsOpen(t) then multiset(data.elems)[t] else 0) &&
            (forall t :: multiset(closed)[t] == if IsClosed(t) then multiset(data.elems)[t] else 0) &&
            (forall t :: t in open ==> t !in closed) &&
            (forall t :: !IsOpen(t) && !IsClosed(t) ==> t !in open && t !in closed)
  {
    var (open, closed) := Partition(data).value;
    var s := data.elems;
    FilterIsSubsequence(s, IsOpen);
    FilterIsSubsequence(s, IsClosed);
    forall t ensures (t in open <==> t in s && IsOpen(t)) && (t in closed <==> t in s && IsClosed(t)) {
      FilterMembership(s, IsOpen, t);
      FilterMembership(s, IsClosed, t);
    }
    forall t ensures multiset(open)[t] == (if IsOpen(t) then multiset(s)[t] else 0) &&
                     multiset(closed)[t] == (if IsClosed(t) then multiset(s)[t] else 0) {
      FilterCount(s, IsOpen, t);
      FilterCount(s, IsClosed, t);
    }
    FilterDisjoint(s, IsOpen, IsClosed);
  }

  class TicketsPage {
    var openTickets: seq<JsValue>
    var closedTickets: seq<JsValue>
    var tab: int
    var loading: bool
    var selected: JsValue
    var closing: bool

    /** The page starts with empty lists, on the open tab, loading. */
    constructor ()
      ensures openTickets == [] && closedTickets == [] && tab == 0 && loading
      ensures selected == Null && !closing
    {
      openTickets, closedTickets := [], [];
      tab := 0;
      loading := true;
      selected := Null;
      closing := false;
    }

    /** `load` up to its `await`: the spinner is on while the tickets are fetched. */
    method StartLoad()
      modifies this
      ensures loading
      ensures openTickets == old(openTickets) && closedTickets == old(closedTickets)
      ensures tab == old(tab) && selected == old(selected) && closing == old(closing)
    {
      loading := true;
    }

    /**
     * `load` after its `await`: the fetched lists on success, two empty lists when the
     * fetch or the split fails, and the spinner off either way.
     */
    method FinishLoad(fetched: Outcome<JsValue>)
      modifies this
      ensures var lists := if fetched.Ok? then Partition(fetched.value) else None;
              if lists.Some? then openTickets == lists.value.0 && closedTickets == lists.value.1
              else openTickets == [] && closedTickets == []
      ensures !loading
      ensures tab == old(tab) && selected == old(selected) && closing == old(closing)
    {
      var lists := if fetched.Ok? then Partition(fetched.value) else None;
      match lists {
        case Some((open, closed)) =>
          openTickets := open;
          closedTickets := closed;
        case None =>
          openTickets := [];
          closedTickets := [];
      }
      loading := false;
    }

    /** `load`: it never rejects, whatever the fetch does. */
    method Load(fetched: Outcome<JsValue>)
      modifies this
      ensures var lists := if fetched.Ok? then Partition(fetched.value) else None;
              if lists.Some? then openTickets == lists.value.0 && closedTickets == lists.value.1
              else openTickets == [] && closedTickets == []
      ensures !loading
      ensures tab == old(tab) && selected == old(selected) && closing == old(closing)
    {
      StartLoad();
      FinishLoad(fetched);
    }

    /** A click on a ticket card opens its details. */
    method Select(ticket: JsValue)
      modifies this
      ensures selected == ticket
      ensures openTickets == old(openTickets) && closedTickets == old(closedTickets)
      ensures tab == old(tab) && loading == old(loading) && closing == old(closing)
    {
      selected := ticket;
    }

    /**
     * `handleClose` up to its first `await`. Without a selection nothing changes and
     * no ticket is closed; otherwise the id is taken, `closing` is set and the selection
     * is cleared before the close call goes out.
     */
    method StartClose() returns (id: Option<JsValue>)
      modifies this
      ensures !Truthy(old(selected)) ==> id == None && selected == old(selected) && closing == old(closing)
      ensures Truthy(old(selected)) ==> id == Some(Get(old(selected), "id")) && selected == Null && closing
      ensures openTickets == old(openTickets) && closedTickets == old(closedTickets)
      ensures tab == old(tab) && loading == old(loading)
    {
      if !Truthy(selected) {
        return None;
      }
      id := Some(Get(selected, "id"));
      closing := true;
      selected := Null;
    }

    /**
     * `handleClose` after the close call settles: a successful close reloads the lists,
     * a failed one leaves them; `closing` ends false either way.
     */
    method FinishClose(closed: Outcome<Response>, fetched: Outcome<JsValue>)
      modifies this
      ensures closed.Ok? ==>
                var lists := if fetched.Ok? then Partition(fetched.value) else None;
                (if lists.Some? then openTickets == lists.value.0 && closedTickets == lists.value.1
                 else openTickets == [] && closedTickets == []) && !loading
      ensures closed.Err? ==>
                openTickets == old(openTickets) && closedTickets == old(closedTickets) && loading == old(loading)
      ensures !closing
      ensures tab == old(tab) && selected == old(selected)
    {
      if closed.Ok? {
        Load(fetched);
      }
      closing := false;
    }

    /**
     * `handleClose`: with no selection a no-op; otherwise it closes the selected
     * ticket's id and ends with no selection and `closing` false, success or not.
     */
    method HandleClose(closed: Outcome<Response>, fetched: Outcome<JsValue>) returns (id: Option<JsValue>)
      modifies this
      ensures !Truthy(old(selected)) ==>
                id == None && selected == old(selected) && closing == old(closing) &&
                openTickets == old(openTickets) && closedTickets == old(closedTickets) && loading == old(loading)
      ensures Truthy(old(selected)) ==> id == Some(Get(old(selected), "id")) && selected == Null && !closing
      ensures Truthy(old(selected)) && closed.Ok? ==>
                var lists := if fetched.Ok? then Partition(fetched.value) else None;
                (if lists.Some? then openTickets == lists.value.0 && closedTickets == lists.value.1
                 else openTickets == [] && closedTickets == []) && !loading
      ensures Truthy(old(selected)) && closed.Err? ==>
                openTickets == old(openTickets) && closedTickets == old(closedTickets) && loading == old(loading)
      ensures tab == old(tab)
    {
      id := StartClose();
      if id.Some? {
        FinishClose(closed, fetched);
      }
    }

    /** `tab === 0 ? openTickets : closedTickets`: tab 0 lists open tickets, any other tab closed ones. */
    function CurrentTickets(): (shown: seq<JsValue>)
      reads this
      ensures tab == 0 ==> shown == openTickets
      ensures tab != 0 ==> shown == closedTickets
    {
      if tab == 0 then openTickets else closedTickets
    }
  }
}
