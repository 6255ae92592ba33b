/**
 * The ticket side of the support desk: the lifecycle of a ticket (creation,
 * assignment, status/comment/priority updates) and the read-side queries
 * with their two role-specific views.
 *
 * The ticket store is a sequence of ticket records in the order the
 * repository lists them; each record carries the internal key the store
 * assigned to it. Users are referred to by their key in the identity store.
 * The clock is a `now` parameter counted in seconds, and the random source is
 * the value `draw` that `nextLong(9000)` returned.
 */
module Tickets {
  import opened Wrappers
  import Users

  type UserKey = Users.UserKey

  /** A point in time, in seconds. */
  type Time = int

  /** The resolution deadline set at creation: 48 hours, in seconds. */
  const ResolutionWindow: int := 48 * 60 * 60

  /** The internal key under which the ticket store keeps a ticket. */
  type TicketKey = nat

  datatype TicketStatus = Open | InProgress | Resolved

  datatype TicketPriority = Low | Medium | High

  datatype Comment = Comment(author: UserKey, content: string, createdAt: Time)

  datatype Ticket = Ticket(
    id: TicketKey,
    ticketId: int,
    title: string,
    description: string,
    priority: TicketPriority,
    status: TicketStatus,
    creationTime: Time,
    resolutionTime: Time,
    customer: UserKey,
    assignedAgent: Option<UserKey>,
    department: Option<string>,
    comments: seq<Comment>)

  /** What a customer submits to open a ticket; only title and description are read. */
  datatype TicketInput = TicketInput(
    title: string,
    description: string,
    priority: Option<TicketPriority>,
    status: Option<TicketStatus>)

  /** An update request: the public ticket id and three optional edits (`None` is Java's null). */
  datatype UpdateRequest = UpdateRequest(
    ticketId: int,
    status: Option<TicketStatus>,
    content: Option<string>,
    priority: Option<TicketPriority>)

  /** The customer-facing view of a ticket: no priority, no customer. */
  datatype TicketView = TicketView(
    ticketId: int,
    title: string,
    description: string,
    creationTime: Time,
    resolutionTime: Time,
    assignedAgent: Option<UserKey>,
    status: TicketStatus,
    comments: seq<Comment>)

  /** The agent-facing view of a ticket: with priority and the owning customer. */
  datatype TicketEmpView = TicketEmpView(
    ticketId: int,
    title: string,
    description: string,
    creationTime: Time,
    resolutionTime: Time,
    priority: TicketPriority,
    status: TicketStatus,
    customer: UserKey,
    comments: seq<Comment>)

  /** The view of a comment: content and time, no author. */
  datatype CommentView = CommentView(content: string, createdAt: Time)

  datatype TicketError =
    | NoValuePresent         // Optional.get() on a customer id that does not resolve
    | TicketNotFound(id: int)
    | AgentNotFound(id: int)
    | CustomerNotFound(id: int)
    | NullPointer            // a null ticket or a null comment dereferenced

  // ---------------------------------------------------------------------
  // Public ticket id generation
  // ---------------------------------------------------------------------

  /** The public ticket id made from `draw`, the value `nextLong(9000)` returned. */
  function GenerateFourDigitNumber(draw: int): (n: int)
    requires 0 <= draw < 9000
    ensures 1000 <= n <= 9999
  {
    1000 + draw
  }

  /** Every four-digit id is produced by exactly one draw, so all are equally likely. */
  lemma FourDigitNumberCoversRange(n: int)
    requires 1000 <= n <= 9999
    ensures exists draw :: 0 <= draw < 9000 && GenerateFourDigitNumber(draw) == n
    ensures forall d :: 0 <= d < 9000 && GenerateFourDigitNumber(d) == n ==> d == n - 1000
  {
    assert GenerateFourDigitNumber(n - 1000) == n;
  }

  // ---------------------------------------------------------------------
  // Repository queries
  // ---------------------------------------------------------------------

  /** The conditions of the repository's derived queries (findByX). */
  datatype Criterion =
    | ByKey(key: TicketKey)
    | ByTicketId(ticketId: int)
    | ByCustomer(customer: UserKey)
    | ByAgent(agent: UserKey)
    | ByStatus(status: TicketStatus)
    | ByDepartment(department: string)

  predicate Matches(t: Ticket, c: Criterion)
  {
    match c
    case ByKey(k) => t.id == k
    case ByTicketId(n) => t.ticketId == n
    case ByCustomer(u) => t.customer == u
    case ByAgent(u) => t.assignedAgent == Some(u)
    case ByStatus(s) => t.status == s
    case ByDepartment(d) => t.department == Some(d)
  }

  /** The positions of the stored tickets that satisfy `c`. */
  ghost function MatchingIndices(ts: seq<Ticket>, c: Criterion): set<int>
  {
    set i | 0 <= i < |ts| && Matches(ts[i], c)
  }

  /** The tickets satisfying `c`, in store order (a list-returning findByX). */
  function Where(ts: seq<Ticket>, c: Criterion): (r: seq<Ticket>)
    ensures |r| <= |ts|
    ensures forall t :: t in r ==> t in ts && Matches(t, c)
  {
    if ts == [] then []
    else
      var rest := Where(ts[..|ts| - 1], c);
      if Matches(ts[|ts| - 1], c) then rest + [ts[|ts| - 1]] else rest
  }

  /** The matching positions of the store without its last ticket. */
  lemma IndicesOfFront(ts: seq<Ticket>, c: Criterion)
    requires ts != []
    ensures MatchingIndices(ts[..|ts| - 1], c) == MatchingIndices(ts, c) - {|ts| - 1}
  {
    var front := ts[..|ts| - 1];
    forall x | x in MatchingIndices(ts, c) - {|ts| - 1} ensures x in MatchingIndices(front, c) {
      assert front[x] == ts[x];
    }
  }

  /** `Where` drops no matching ticket: its length is the number of matching positions. */
  lemma {:induction false} WhereCount(ts: seq<Ticket>, c: Criterion)
    ensures |Where(ts, c)| == |MatchingIndices(ts, c)|
  {
    if ts != [] {
      var n := |ts| - 1;
      WhereCount(ts[..n], c);
      IndicesOfFront(ts, c);
      if Matches(ts[n], c) {
        assert MatchingIndices(ts, c) == MatchingIndices(ts[..n], c) + {n};
      } else {
        assert MatchingIndices(ts, c) == MatchingIndices(ts[..n], c);
      }
    }
  }

  /** A matching ticket of the store is in the result of `Where`. */
  lemma {:induction false} WhereComplete(ts: seq<Ticket>, c: Criterion, t: Ticket)
    ensures t in Where(ts, c) <==> t in ts && Matches(t, c)
  {
    if ts != [] {
      var n := |ts| - 1;
      WhereComplete(ts[..n], c, t);
      assert ts == ts[..n] + [ts[n]];
    }
  }

  /**
   * The positions of the tickets satisfying `c`, ascending: each position
   * holds a matching ticket, each appears once, and none is left out.
   */
  ghost function MatchPositions(ts: seq<Ticket>, c: Criterion): (p: seq<int>)
    ensures forall k :: 0 <= k < |p| ==> 0 <= p[k] < |ts| && Matches(ts[p[k]], c)
    ensures forall j, k :: 0 <= j < k < |p| ==> p[j] < p[k]
    ensures forall i :: 0 <= i < |ts| && Matches(ts[i], c) ==> i in p
  {
    if ts == [] then []
    else
      var n := |ts| - 1;
      var rest := MatchPositions(ts[..n], c);
      assert forall i :: 0 <= i < n ==> ts[..n][i] == ts[i];
      if Matches(ts[n], c) then rest + [n] else rest
  }

  /**
   * `Where` is the subsequence of the store at the matching positions: it
   * keeps every matching ticket once, in store order.
   */
  lemma {:induction false} WhereAtPositions(ts: seq<Ticket>, c: Criterion)
    ensures |Where(ts, c)| == |MatchPositions(ts, c)|
    ensures forall k :: 0 <= k < |Where(ts, c)| ==> Where(ts, c)[k] == ts[MatchPositions(ts, c)[k]]
  {
    if ts != [] {
      var n := |ts| - 1;
      WhereAtPositions(ts[..n], c);
      assert forall i :: 0 <= i < n ==> ts[..n][i] == ts[i];
    }
  }

  /** The position of the first stored ticket satisfying `c` (a single-result findByX). */
  function FindFirst(ts: seq<Ticket>, c: Criterion): (r: Option<nat>)
    ensures r.None? <==> forall i :: 0 <= i < |ts| ==> !Matches(ts[i], c)
    ensures r.Some? ==> r.value < |ts| && Matches(ts[r.value], c)
    ensures r.Some? ==> forall j :: 0 <= j < r.value ==> !Matches(ts[j], c)
  {
    if ts == [] then None
    else if Matches(ts[0], c) then Some(0)
    else
      match FindFirst(ts[1..], c)
      case None =>
        assert forall i :: 1 <= i < |ts| ==> ts[i] == ts[1..][i - 1];
        None
      case Some(j) =>
        assert forall i :: 1 <= i <= j + 1 ==> ts[i] == ts[1..][i - 1];
        Some(j + 1)
  }

  /** Replacing a ticket by one that agrees on `c` does not move the first match of `c`. */
  lemma {:induction false} FindFirstAfterReplace(ts: seq<Ticket>, i: nat, t: Ticket, c: Criterion)
    requires i < |ts| && Matches(t, c) == Matches(ts[i], c)
    ensures FindFirst(ts[i := t], c) == FindFirst(ts, c)
  {
    if i == 0 {
      assert ts[i := t][1..] == ts[1..];
    } else {
      FindFirstAfterReplace(ts[1..], i - 1, t, c);
      assert ts[i := t][1..] == ts[1..][i - 1 := t];
    }
  }

  /** Replacing the ticket at `i` leaves the other matching positions alone. */
  lemma IndicesAfterReplace(ts: seq<Ticket>, i: nat, t: Ticket, c: Criterion)
    requires i < |ts|
    ensures MatchingIndices(ts[i := t], c) - {i} == MatchingIndices(ts, c) - {i}
  {
  }

  /** Two sets that agree away from `i` differ in size by their membership of `i` only. */
  lemma CardinalityAwayFrom(a: set<int>, b: set<int>, i: int)
    requires a - {i} == b - {i}
    ensures |b| == |a| - (if i in a then 1 else 0) + (if i in b then 1 else 0)
  {
    var others := a - {i};
    if i in a {
      assert a == others + {i};
    } else {
      assert a == others;
    }
    if i in b {
      assert b == others + {i};
    } else {
      assert b == others;
    }
  }

  /** Replacing one ticket changes the matching positions by at most the replaced one. */
  lemma IndexCountAfterReplace(ts: seq<Ticket>, i: nat, t: Ticket, c: Criterion)
    requires i < |ts|
    ensures |MatchingIndices(ts[i := t], c)| ==
      |MatchingIndices(ts, c)| - (if Matches(ts[i], c) then 1 else 0) + (if Matches(t, c) then 1 else 0)
  {
    IndicesAfterReplace(ts, i, t, c);
    CardinalityAwayFrom(MatchingIndices(ts, c), MatchingIndices(ts[i := t], c), i);
    assert ts[i := t][i] == t;
  }

  /** Replacing one ticket changes the number of matches by at most the one it replaced. */
  lemma MatchCountAfterReplace(ts: seq<Ticket>, i: nat, t: Ticket, c: Criterion)
    requires i < |ts|
    ensures |Where(ts[i := t], c)| ==
      |Where(ts, c)| - (if Matches(ts[i], c) then 1 else 0) + (if Matches(t, c) then 1 else 0)
  {
    WhereCount(ts, c);
    WhereCount(ts[i := t], c);
    IndexCountAfterReplace(ts, i, t, c);
  }

  /** Appending a ticket adds one match exactly when the new ticket matches. */
  lemma MatchCountAfterAppend(ts: seq<Ticket>, t: Ticket, c: Criterion)
    ensures |Where(ts + [t], c)| == |Where(ts, c)| + (if Matches(t, c) then 1 else 0)
  {
  }

  // ---------------------------------------------------------------------
  // Views
  // ---------------------------------------------------------------------

  /** The customer-facing projection of a ticket. */
  function ToView(t: Ticket): TicketView
  {
    TicketView(t.ticketId, t.title, t.description, t.creationTime, t.resolutionTime,
               t.assignedAgent, t.status, t.comments)
  }

  /** The agent-facing projection of a ticket. */
  function ToEmpView(t: Ticket): TicketEmpView
  {
    TicketEmpView(t.ticketId, t.title, t.description, t.creationTime, t.resolutionTime,
                  t.priority, t.status, t.customer, t.comments)
  }

  function ToCommentView(c: Comment): CommentView
  {
    CommentView(c.content, c.createdAt)
  }

  /** The customer view reveals nothing of priority, customer or department. */
  lemma CustomerViewHidesPriority(t: Ticket, p: TicketPriority, u: UserKey, d: Option<string>)
    ensures ToView(t.(priority := p, customer := u, department := d)) == ToView(t)
  {
  }

  /** Two tickets with the same agent view have the same priority and customer. */
  lemma AgentViewShowsPriorityAndCustomer(a: Ticket, b: Ticket)
    requires ToEmpView(a) == ToEmpView(b)
    ensures a.priority == b.priority && a.customer == b.customer && a.status == b.status
  {
  }

  function Views(ts: seq<Ticket>): seq<TicketView>
  {
    seq(|ts|, k requires 0 <= k < |ts| => ToView(ts[k]))
  }

  function EmpViews(ts: seq<Ticket>): seq<TicketEmpView>
  {
    seq(|ts|, k requires 0 <= k < |ts| => ToEmpView(ts[k]))
  }

  /**
   * `vs` lists the customer views of the tickets satisfying `c`: one view per
   * matching ticket, in store order, so a view shared by several matching
   * tickets appears once for each of them.
   */
  ghost predicate ViewsOfMatches(vs: seq<TicketView>, ts: seq<Ticket>, c: Criterion)
  {
    var p := MatchPositions(ts, c);
    && |vs| == |p| == |MatchingIndices(ts, c)|
    && forall k :: 0 <= k < |vs| ==> vs[k] == ToView(ts[p[k]])
  }

  /** As `ViewsOfMatches`, for the agent views. */
  ghost predicate EmpViewsOfMatches(vs: seq<TicketEmpView>, ts: seq<Ticket>, c: Criterion)
  {
    var p := MatchPositions(ts, c);
    && |vs| == |p| == |MatchingIndices(ts, c)|
    && forall k :: 0 <= k < |vs| ==> vs[k] == ToEmpView(ts[p[k]])
  }

  /** The customer views of `Where(ts, c)`: the view of each matching ticket, in store order. */
  function Select(ts: seq<Ticket>, c: Criterion): (vs: seq<TicketView>)
    ensures ViewsOfMatches(vs, ts, c)
  {
    WhereCount(ts, c);
    WhereAtPositions(ts, c);
    Views(Where(ts, c))
  }

  /** The agent views of `Where(ts, c)`: the view of each matching ticket, in store order. */
  function SelectForAgent(ts: seq<Ticket>, c: Criterion): (vs: seq<TicketEmpView>)
    ensures EmpViewsOfMatches(vs, ts, c)
  {
    WhereCount(ts, c);
    WhereAtPositions(ts, c);
    EmpViews(Where(ts, c))
  }

  // ---------------------------------------------------------------------
  // Read side
  // ---------------------------------------------------------------------

  /** The customer views of the tickets owned by `userId`; fails when the user does not resolve. */
  function TicketsAssociatedToCustomer(ts: seq<Ticket>, users: map<UserKey, Users.User>, userId: UserKey)
    : (r: Result<seq<TicketView>, TicketError>)
    ensures r.Err? <==> userId !in users
    ensures r.Err? ==> r.error == CustomerNotFound(userId)
    ensures r.Ok? ==> ViewsOfMatches(r.value, ts, ByCustomer(userId))
  {
    if userId !in users then Err(CustomerNotFound(userId))
    else Ok(Select(ts, ByCustomer(userId)))
  }

  /** The agent views of the tickets assigned to `userId`; fails when the agent does not resolve. */
  function TicketsByAgent(ts: seq<Ticket>, users: map<UserKey, Users.User>, userId: UserKey)
    : (r: Result<seq<TicketEmpView>, TicketError>)
    ensures r.Err? <==> userId !in users
    ensures r.Err? ==> r.error == AgentNotFound(userId)
    ensures r.Ok? ==> EmpViewsOfMatches(r.value, ts, ByAgent(userId))
  {
    if userId !in users then Err(AgentNotFound(userId))
    else Ok(SelectForAgent(ts, ByAgent(userId)))
  }

  /** The customer views of exactly the tickets with status `status`. */
  function TicketsByStatus(ts: seq<Ticket>, status: TicketStatus): (vs: seq<TicketView>)
    ensures ViewsOfMatches(vs, ts, ByStatus(status))
    ensures forall v :: v in vs ==> v.status == status
  {
    Select(ts, ByStatus(status))
  }

  /** The customer views of exactly the tickets of department `department`. */
  function TicketsByDepartment(ts: seq<Ticket>, department: string): (vs: seq<TicketView>)
    ensures ViewsOfMatches(vs, ts, ByDepartment(department))
  {
    Select(ts, ByDepartment(department))
  }

  /** The number of stored tickets whose status is OPEN. */
  function TotalActiveTicketCount(ts: seq<Ticket>): (n: nat)
    ensures n == |MatchingIndices(ts, ByStatus(Open))|
  {
    WhereCount(ts, ByStatus(Open));
    |Where(ts, ByStatus(Open))|
  }

  /** The comment views of the ticket with public id `ticketId`, in stored order. */
  function CommentsByTicket(ts: seq<Ticket>, ticketId: int): (r: Result<seq<CommentView>, TicketError>)
    ensures r.Err? <==> forall i :: 0 <= i < |ts| ==> ts[i].ticketId != ticketId
    ensures r.Err? ==> r.error == TicketNotFound(ticketId)
    ensures r.Ok? ==>
      var t := ts[FindFirst(ts, ByTicketId(ticketId)).value];
      && t.ticketId == ticketId
      && |r.value| == |t.comments|
      && forall k :: 0 <= k < |r.value| ==>
           r.value[k].content == t.comments[k].content && r.value[k].createdAt == t.comments[k].createdAt
  {
    match FindFirst(ts, ByTicketId(ticketId))
    case None => Err(TicketNotFound(ticketId))
    case Some(i) =>
      var cs := ts[i].comments;
      Ok(seq(|cs|, k requires 0 <= k < |cs| => ToCommentView(cs[k])))
  }

  /** Comments listed in non-decreasing order of creation time. */
  ghost predicate CommentsAscending(cs: seq<Comment>)
  {
    forall i, j :: 0 <= i < j < |cs| ==> cs[i].createdAt <= cs[j].createdAt
  }

  // ---------------------------------------------------------------------
  // Update rules
  // ---------------------------------------------------------------------

  const UpdatedMessage: string := "Ticket details updated successfully"

  function NatToString(n: nat): string
    decreases n
  {
    var digit := [(('0' as int) + n % 10) as char];
    if n < 10 then digit else NatToString(n / 10) + digit
  }

  /** Java's decimal rendering of a long. */
  function LongToString(n: int): string
  {
    if n < 0 then "-" + NatToString(-n) else NatToString(n)
  }

  /** The informational outcome of an update attempted on a resolved ticket. */
  function AlreadyResolvedMessage(ticketId: int): (m: string)
    ensures m != UpdatedMessage
  {
    var m := "The Ticket with id " + LongToString(ticketId) + " is already Resolved.";
    assert m[1] != UpdatedMessage[1];
    m
  }

  /**
   * A non-resolved ticket after an update: the status, comment and priority
   * edits, each applied under its own guard.
   */
  function EditedTicket(t: Ticket, status: Option<TicketStatus>, content: string,
                        priority: Option<TicketPriority>, now: Time): Ticket
  {
    var statusChanges := status.Some? && status.value != t.status;
    t.(status := if statusChanges then status.value else t.status,
       resolutionTime := if statusChanges && status.value == Resolved then now else t.resolutionTime,
       comments := if content != "" then t.comments + [Comment(t.customer, content, now)] else t.comments,
       priority := if priority.Some? && priority.value != t.priority then priority.value else t.priority)
  }

  /**
   * Status edit: the status changes exactly when a status is supplied and
   * differs; the resolution time becomes `now` exactly when the new status is
   * RESOLVED.
   */
  lemma StatusEditRule(t: Ticket, status: Option<TicketStatus>, content: string,
                       priority: Option<TicketPriority>, now: Time)
    requires t.status != Resolved
    ensures var r := EditedTicket(t, status, content, priority, now);
      && (r.status != t.status <==> status.Some? && status.value != t.status)
      && r.status == (if status.Some? then status.value else t.status)
      && r.resolutionTime == (if status == Some(Resolved) then now else t.resolutionTime)
  {
  }

  /**
   * Comment edit: non-empty content appends exactly one comment, by the
   * ticket's customer at time `now`, after the untouched existing ones; empty
   * content leaves the comments alone.
   */
  lemma CommentEditRule(t: Ticket, status: Option<TicketStatus>, content: string,
                        priority: Option<TicketPriority>, now: Time)
    ensures var r := EditedTicket(t, status, content, priority, now);
      && (content == "" ==> r.comments == t.comments)
      && (content != "" ==>
            && |r.comments| == |t.comments| + 1
            && r.comments[..|t.comments|] == t.comments
            && r.comments[|t.comments|] == Comment(t.customer, content, now))
  {
  }

  /** Priority edit: the priority changes exactly when one is supplied and differs. */
  lemma PriorityEditRule(t: Ticket, status: Option<TicketStatus>, content: string,
                         priority: Option<TicketPriority>, now: Time)
    ensures var r := EditedTicket(t, status, content, priority, now);
      && (r.priority != t.priority <==> priority.Some? && priority.value != t.priority)
      && r.priority == (if priority.Some? then priority.value else t.priority)
  {
  }

  /** An update keeps keys, customer, title, description, creation time, agent and department. */
  lemma EditKeepsIdentity(t: Ticket, status: Option<TicketStatus>, content: string,
                          priority: Option<TicketPriority>, now: Time)
    ensures var r := EditedTicket(t, status, content, priority, now);
      && r.id == t.id && r.ticketId == t.ticketId && r.customer == t.customer
      && r.title == t.title && r.description == t.description
      && r.creationTime == t.creationTime
      && r.assignedAgent == t.assignedAgent && r.department == t.department
  {
  }

  /** An update at a time no earlier than every existing comment keeps the comments ascending. */
  lemma EditKeepsCommentOrder(t: Ticket, status: Option<TicketStatus>, content: string,
                              priority: Option<TicketPriority>, now: Time)
    requires CommentsAscending(t.comments)
    requires forall c :: c in t.comments ==> c.createdAt <= now
    ensures CommentsAscending(EditedTicket(t, status, content, priority, now).comments)
  {
  }

  // ---------------------------------------------------------------------
  // Lifecycle invariants across operations
  // ---------------------------------------------------------------------

  /**
   * `u` is a later state of ticket `t`: its identity is fixed, its comments
   * only grow at the end, and once RESOLVED nothing of status, priority,
   * resolution time or comments changes any more.
   */
  ghost predicate Successor(t: Ticket, u: Ticket)
  {
    && u.id == t.id && u.ticketId == t.ticketId && u.customer == t.customer
    && u.title == t.title && u.description == t.description
    && u.creationTime == t.creationTime
    && |t.comments| <= |u.comments| && u.comments[..|t.comments|] == t.comments
    && (t.status == Resolved ==>
          && u.status == Resolved && u.priority == t.priority
          && u.resolutionTime == t.resolutionTime && u.comments == t.comments)
  }

  /** `after` is a later state of the store `before`: tickets are only added at the end. */
  ghost predicate Evolves(before: seq<Ticket>, after: seq<Ticket>)
  {
    |before| <= |after| && forall i :: 0 <= i < |before| ==> Successor(before[i], after[i])
  }

  lemma SuccessorReflexive(t: Ticket)
    ensures Successor(t, t)
  {
    assert t.comments[..|t.comments|] == t.comments;
  }

  /** Leaving the store as it is keeps every earlier state. */
  lemma EvolvesReflexive(ts: seq<Ticket>)
    ensures Evolves(ts, ts)
  {
    forall i | 0 <= i < |ts| ensures Successor(ts[i], ts[i]) {
      SuccessorReflexive(ts[i]);
    }
  }

  /** Saving new tickets at the end of the store keeps every earlier state. */
  lemma EvolvesByAppend(ts: seq<Ticket>, added: seq<Ticket>)
    ensures Evolves(ts, ts + added)
  {
    forall i | 0 <= i < |ts| ensures Successor(ts[i], (ts + added)[i]) {
      SuccessorReflexive(ts[i]);
    }
  }

  /** Saving a later state of one ticket keeps every earlier state. */
  lemma EvolvesByReplace(ts: seq<Ticket>, i: nat, t: Ticket)
    requires i < |ts| && Successor(ts[i], t)
    ensures Evolves(ts, ts[i := t])
  {
    forall k | 0 <= k < |ts| && k != i ensures Successor(ts[k], ts[i := t][k]) {
      SuccessorReflexive(ts[k]);
    }
  }

  /** Any chain of operations keeps identities and freezes resolved tickets. */
  lemma EvolvesTransitive(a: seq<Ticket>, b: seq<Ticket>, c: seq<Ticket>)
    requires Evolves(a, b) && Evolves(b, c)
    ensures Evolves(a, c)
  {
  }

  /** An update of a non-resolved ticket yields a later state of it. */
  lemma EditIsSuccessor(t: Ticket, status: Option<TicketStatus>, content: string,
                        priority: Option<TicketPriority>, now: Time)
    requires t.status != Resolved
    ensures Successor(t, EditedTicket(t, status, content, priority, now))
  {
  }

  /** The count of OPEN tickets after one ticket is replaced. */
  lemma ActiveCountAfterReplace(ts: seq<Ticket>, i: nat, t: Ticket)
    requires i < |ts|
    ensures TotalActiveTicketCount(ts[i := t]) ==
      TotalActiveTicketCount(ts) - (if ts[i].status == Open then 1 else 0) + (if t.status == Open then 1 else 0)
  {
    IndexCountAfterReplace(ts, i, t, ByStatus(Open));
  }

  /**
   * A comment added by an update of a non-resolved ticket is listed last by
   * the comment query for that ticket, after the ones listed before.
   */
  lemma CommentListedAfterUpdate(ts: seq<Ticket>, ticketId: int, status: Option<TicketStatus>,
                                 content: string, priority: Option<TicketPriority>, now: Time)
    requires FindFirst(ts, ByTicketId(ticketId)).Some?
    requires content != ""
    ensures var i := FindFirst(ts, ByTicketId(ticketId)).value;
      && CommentsByTicket(ts, ticketId).Ok?
      && CommentsByTicket(ts[i := EditedTicket(ts[i], status, content, priority, now)], ticketId)
         == Ok(CommentsByTicket(ts, ticketId).value + [CommentView(content, now)])
  {
    var i := FindFirst(ts, ByTicketId(ticketId)).value;
    var u := EditedTicket(ts[i], status, content, priority, now);
    FindFirstAfterReplace(ts, i, u, ByTicketId(ticketId));
    CommentEditRule(ts[i], status, content, priority, now);
    assert FindFirst(ts[i := u], ByTicketId(ticketId)) == Some(i);
    var before := CommentsByTicket(ts, ticketId).value;
    var after := CommentsByTicket(ts[i := u], ticketId).value;
    assert |after| == |before| + 1;
    forall k | 0 <= k < |after| ensures after[k] == (before + [CommentView(content, now)])[k] {
      if k < |before| {
        assert u.comments[k] == ts[i].comments[k];
      } else {
        assert u.comments[k] == Comment(ts[i].customer, content, now);
      }
    }
    assert after == before + [CommentView(content, now)];
  }

  /** Internal keys are distinct across the store. */
  ghost predicate KeysDistinct(ts: seq<Ticket>)
  {
    forall i, j :: 0 <= i < j < |ts| ==> ts[i].id != ts[j].id
  }

  /**
   * With distinct internal keys, the first ticket with key `k` is the only
   * one, so the first-match lookup is the lookup by key.
   */
  lemma FirstKeyMatchIsOnly(ts: seq<Ticket>, k: TicketKey, i: nat)
    requires KeysDistinct(ts) && i < |ts| && ts[i].id == k
    ensures FindFirst(ts, ByKey(k)) == Some(i)
  {
    var j := FindFirst(ts, ByKey(k)).value;
    if j < i {
      assert ts[j].id == ts[i].id;
    }
  }

  // ---------------------------------------------------------------------
  // The service (state-changing operations)
  // ---------------------------------------------------------------------

  class TicketService {
    /** The ticket store, in repository order. */
    var tickets: seq<Ticket>

    ghost predicate Valid()
      reads this
    {
      KeysDistinct(tickets)
    }

    constructor (initial: seq<Ticket>)
      requires KeysDistinct(initial)
      ensures Valid() && tickets == initial
    {
      tickets := initial;
    }

    /**
     * Opens a ticket for customer `userId`: status OPEN and priority LOW
     * whatever the input says, a public id from `draw`, and a resolution
     * deadline 48 hours after `now`. `key` is the internal key the store
     * assigns to the new row.
     */
    method CreateTicket(input: TicketInput, userId: UserKey, users: map<UserKey, Users.User>,
                        key: TicketKey, draw: int, now: Time)
      returns (r: Result<TicketView, TicketError>)
      requires Valid()
      requires forall i :: 0 <= i < |tickets| ==> tickets[i].id != key
      requires 0 <= draw < 9000
      modifies this
      ensures Valid() && Evolves(old(tickets), tickets)
      ensures r.Err? <==> userId !in users
      ensures r.Err? ==> r.error == NoValuePresent && tickets == old(tickets)
      ensures r.Ok? ==> |tickets| == |old(tickets)| + 1 && tickets[..|old(tickets)|] == old(tickets)
      ensures r.Ok? ==>
        var t := tickets[|old(tickets)|];
        && t.id == key
        && t.ticketId == GenerateFourDigitNumber(draw) && 1000 <= t.ticketId <= 9999
        && t.title == input.title && t.description == input.description
        && t.status == Open && t.priority == Low
        && t.customer == userId
        && t.creationTime == now && t.resolutionTime == now + ResolutionWindow
        && t.assignedAgent == None && t.department == None && t.comments == []
        && r.value == ToView(t)
      ensures r.Ok? ==> TotalActiveTicketCount(tickets) == TotalActiveTicketCount(old(tickets)) + 1
    {
      if userId !in users {
        EvolvesReflexive(tickets);
        return Err(NoValuePresent);
      }
      var t := Ticket(key, GenerateFourDigitNumber(draw), input.title, input.description,
                      Low, Open, now, now + ResolutionWindow, userId, None, None, []);
      MatchCountAfterAppend(tickets, t, ByStatus(Open));
      EvolvesByAppend(tickets, [t]);
      tickets := tickets + [t];
      r := Ok(ToView(t));
    }

    /**
     * Assigns the ticket with internal key `ticketKey` to agent `agentId`,
     * copying the agent's department onto the ticket.
     */
    method AssignTicket(ticketKey: TicketKey, agentId: UserKey, users: map<UserKey, Users.User>)
      returns (r: Result<TicketView, TicketError>)
      requires Valid()
      modifies this
      ensures Valid() && Evolves(old(tickets), tickets)
      ensures FindFirst(old(tickets), ByKey(ticketKey)).None? ==>
        r == Err(TicketNotFound(ticketKey)) && tickets == old(tickets)
      ensures FindFirst(old(tickets), ByKey(ticketKey)).Some? && agentId !in users ==>
        r == Err(AgentNotFound(agentId)) && tickets == old(tickets)
      ensures FindFirst(old(tickets), ByKey(ticketKey)).Some? && agentId in users ==>
        var i := FindFirst(old(tickets), ByKey(ticketKey)).value;
        && tickets == old(tickets)[i := old(tickets)[i].(assignedAgent := Some(agentId),
                                                        department := Some(users[agentId].department))]
        && r == Ok(ToView(tickets[i]))
      ensures TotalActiveTicketCount(tickets) == TotalActiveTicketCount(old(tickets))
    {
      var found := FindFirst(tickets, ByKey(ticketKey));
      if found.None? {
        EvolvesReflexive(tickets);
        return Err(TicketNotFound(ticketKey));
      }
      if agentId !in users {
        EvolvesReflexive(tickets);
        return Err(AgentNotFound(agentId));
      }
      var i := found.value;
      var t := tickets[i];
      t := t.(assignedAgent := Some(agentId));
      t := t.(department := Some(users[agentId].department));
      ActiveCountAfterReplace(tickets, i, t);
      SuccessorReflexive(tickets[i]);
      EvolvesByReplace(tickets, i, t);
      tickets := tickets[i := t];
      r := Ok(ToView(t));
    }

    /**
     * Applies the status, comment and priority edits of `req` to the ticket
     * with its public id, unless that ticket is already RESOLVED.
     */
    method UpdateTicket(req: UpdateRequest, now: Time) returns (r: Result<string, TicketError>)
      requires Valid()
      modifies this
      ensures Valid() && Evolves(old(tickets), tickets)
      ensures FindFirst(old(tickets), ByTicketId(req.ticketId)).None? ==>
        r == Err(NullPointer) && tickets == old(tickets)
      ensures FindFirst(old(tickets), ByTicketId(req.ticketId)).Some? ==>
        var i := FindFirst(old(tickets), ByTicketId(req.ticketId)).value;
        var t := old(tickets)[i];
        && (t.status == Resolved ==>
              r == Ok(AlreadyResolvedMessage(t.ticketId)) && tickets == old(tickets))
        && (t.status != Resolved && req.content.None? ==>
              r == Err(NullPointer) && tickets == old(tickets))
        && (t.status != Resolved && req.content.Some? ==>
              && r == Ok(UpdatedMessage)
              && tickets == old(tickets)[i := EditedTicket(t, req.status, req.content.value, req.priority, now)])
    {
      var found := FindFirst(tickets, ByTicketId(req.ticketId));
      if found.None? {
        EvolvesReflexive(tickets);
        return Err(NullPointer);
      }
      var i := found.value;
      var t := tickets[i];
      if t.status == Resolved {
        EvolvesReflexive(tickets);
        return Ok(AlreadyResolvedMessage(t.ticketId));
      }
      if req.status.Some? && req.status.value != t.status {
        t := t.(status := req.status.value);
        if t.status == Resolved {
          t := t.(resolutionTime := now);
        }
      }
      if req.content.None? {
        // getContent().isEmpty() throws; the transaction rolls the status edit back
        EvolvesReflexive(tickets);
        return Err(NullPointer);
      }
      if req.content.value != "" {
        t := t.(comments := t.comments + [Comment(t.customer, req.content.value, now)]);
      }
      if req.priority.Some? && req.priority.value != t.priority {
        t := t.(priority := req.priority.value);
      }
      assert t == EditedTicket(tickets[i], req.status, req.content.value, req.priority, now);
      EditIsSuccessor(tickets[i], req.status, req.content.value, req.priority, now);
      EvolvesByReplace(tickets, i, t);
      tickets := tickets[i := t];
      r := Ok(UpdatedMessage);
    }
  }
}
