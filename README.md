# Support desk service core in Dafny

This project models the two services at the centre of a support-ticketing
backend and proves properties about them.

- **Ticket service.** A customer opens a ticket. It starts OPEN with priority
  LOW and gets a random four-digit public id. Its resolution deadline is 48
  hours after creation. An agent is assigned and the agent's department is
  copied onto the ticket. An update runs three independent guarded edits:
  status, comment and priority. A RESOLVED ticket refuses every update. The
  read side filters the store by customer, agent, status or department. It
  counts OPEN tickets and lists a ticket's comments. It offers two views: one
  for customers, without priority, and one for agents, with priority and the
  customer.
- **User service.** Registration checks that the username is unique, then
  that the email is. Staff-only fields (employee code, department) are kept
  only when the role string contains `ROLE_EMPLOYEE` or `ROLE_ADMIN`; any
  other role gets `"NA"` for both. Exactly one role is attached. Lookup by
  username fails when no user has that name.

Files:

- `Wrappers.dfy`: `Option`, `Result` and `Outcome`, for Java's nulls and
  exceptions.
- `Users.dfy` (module `Users`): the user records. It holds the substring test
  `Contains` (Java's `String.contains`), `ValidateNewUser` and
  `FindByUsername` as functions over the identity store
  (`map<UserKey, User>`), and the class `UserService`, whose `RegisterUser`
  writes to that map.
- `Tickets.dfy` (module `Tickets`): the ticket records and views. The
  repository's derived queries are a `Criterion` with `Where` (list result)
  and `FindFirst` (single result). It holds the read-side functions, the
  update rules (`EditedTicket`) and the class `TicketService`. That class
  keeps the ticket store as a `seq<Ticket>` in repository order. Its methods
  `CreateTicket`, `AssignTicket` and `UpdateTicket` change that sequence.

Abstractions:

- The clock is a `now: int` parameter, in seconds; 48 hours is 172800.
- The random source is `draw`, the value `nextLong(9000)` returned
  (`0 <= draw < 9000`).
- The password encoder is a function parameter `encode: string -> string`.
- The internal keys the store assigns to new rows are inputs, required to be
  unused.
- Tickets refer to users (customer, agent, comment author) by their key in
  the identity store.
- `TicketService.java:49-50` reads the clock twice, for the creation time and
  the deadline. `updateTicket` also reads it twice, for the resolution time
  (line 88) and the comment time (line 97). The model reads `now` once per
  operation and uses it for both reads; `EditedTicket` takes a single `now`.

Behaviour of the code worth noting:

- `createTicket` with an unknown customer id calls `Optional.get()`, which
  throws `NoSuchElementException` rather than a not-found error. The model
  returns `Err(NoValuePresent)`.
- `updateTicket` with an unknown public id dereferences `null`. So does a
  request with `null` content. The model returns `Err(NullPointer)` and leaves
  the store unchanged, since the transaction rolls back.
- The staff-role test is a substring test, not an equality test.
  `StaffRoleBySubstring` states this.
- `assignTicket` does not check that the "agent" is staff, and does not check
  that the ticket is still open. A customer can be assigned; the ticket then
  gets the department `"NA"`.

## Model

| member | source | states |
|---|---|---|
| `Users.Contains` | src/main/java/com/support/desk/service/UserService.java:44 | the result is true exactly when the pattern occurs as a contiguous run at some position of the string |
| `Users.IsStaffRole` | src/main/java/com/support/desk/service/UserService.java:44 | true exactly when `ROLE_EMPLOYEE` or `ROLE_ADMIN` occurs somewhere in the role string |
| `Users.StaffRoleBySubstring` | src/main/java/com/support/desk/service/UserService.java:44 | any role string with `ROLE_EMPLOYEE` or `ROLE_ADMIN` anywhere inside it counts as staff |
| `Users.CustomerRoleIsNotStaff` | src/main/java/com/support/desk/service/UserService.java:44-50 | `ROLE_CUSTOMER` is not a staff role, so its staff fields are forced to `"NA"` |
| `Users.ValidateNewUser` | src/main/java/com/support/desk/service/UserService.java:62-72 | fails with UsernameTaken exactly when the username exists; fails with EmailInUse exactly when the username is fresh and the email exists; passes exactly when both are fresh; a failure reports "Username is already taken!" exactly when the username exists |
| `Users.FindByUsername` | src/main/java/com/support/desk/service/UserService.java:74-84 | succeeds exactly when some stored user has the username, and returns that stored user; otherwise fails with a not-found error naming the username, whose message is "User not found with username: " followed by it |
| `Users.AddFreshUser` | src/main/java/com/support/desk/service/UserService.java:59-71 | adding a user whose username and email are both fresh, under an unused key, keeps both unique constraints; a lookup of that username then finds exactly the new user |
| `Users.UserService.RegisterUser` | src/main/java/com/support/desk/service/UserService.java:31-60 | on a validation failure the store is unchanged and the same error is returned. On success the store gains exactly one user under the new key and keeps the old ones. The new user copies username, email, full name, phone, age and gender, and its password is `encode(raw)`. Its staff fields come from the input exactly for staff roles and are `"NA"` otherwise. Its roles are exactly `{Role(role)}`. Its username and email now exist, a lookup finds it, and uniqueness still holds |
| `Tickets.GenerateFourDigitNumber` | src/main/java/com/support/desk/service/TicketService.java:201-204 | the public id lies in [1000, 9999] |
| `Tickets.FourDigitNumberCoversRange` | src/main/java/com/support/desk/service/TicketService.java:201-204 | every id in [1000, 9999] comes from exactly one draw |
| `Tickets.Where` | src/main/java/com/support/desk/service/TicketService.java:139 | a list query returns no more tickets than are stored, each one stored and matching the query's condition |
| `Tickets.WhereCount` | src/main/java/com/support/desk/service/TicketService.java:139 | a list query returns as many tickets as there are matching positions in the store |
| `Tickets.WhereComplete` | src/main/java/com/support/desk/service/TicketService.java:145 | a ticket is returned by a list query exactly when it is stored and matches |
| `Tickets.MatchPositions` | src/main/java/com/support/desk/service/TicketService.java:139 | the positions of the tickets matching a condition, strictly ascending, each holding a matching ticket, none left out |
| `Tickets.WhereAtPositions` | src/main/java/com/support/desk/service/TicketService.java:139 | a list query returns the stored ticket at each matching position, in store order, so each matching ticket appears exactly once |
| `Tickets.FindFirst` | src/main/java/com/support/desk/service/TicketService.java:80 | the single-result lookup yields nothing exactly when no ticket matches; otherwise it yields the first matching position |
| `Tickets.FindFirstAfterReplace` | src/main/java/com/support/desk/service/TicketService.java:80 | rewriting a ticket without changing its key or public id does not change what a lookup finds |
| `Tickets.MatchCountAfterReplace` | src/main/java/com/support/desk/service/TicketService.java:139 | rewriting one ticket changes a query's result size by the old and the new ticket's membership only |
| `Tickets.MatchCountAfterAppend` | src/main/java/com/support/desk/service/TicketService.java:52 | saving a new ticket grows a query's result by one exactly when the ticket matches |
| `Tickets.CustomerViewHidesPriority` | src/main/java/com/support/desk/service/TicketService.java:167-178 | the customer view does not depend on priority, customer or department |
| `Tickets.AgentViewShowsPriorityAndCustomer` | src/main/java/com/support/desk/service/TicketService.java:180-192 | equal agent views mean equal priority, customer and status, so the agent view carries all three |
| `Tickets.ToView` | src/main/java/com/support/desk/service/TicketService.java:167-178 | the customer projection of a ticket; `CustomerViewHidesPriority` proves it ignores priority, customer and department |
| `Tickets.ToEmpView` | src/main/java/com/support/desk/service/TicketService.java:180-192 | the agent projection of a ticket; `AgentViewShowsPriorityAndCustomer` proves it determines priority, customer and status |
| `Tickets.ToCommentView` | src/main/java/com/support/desk/service/TicketService.java:194-199 | the comment projection, content and time without the author; `CommentsByTicket` states the listing through it field by field |
| `Tickets.Select` | src/main/java/com/support/desk/service/TicketService.java:124 | the customer views of the tickets matching a condition: one view per matching ticket, in store order, as many as there are matching positions |
| `Tickets.SelectForAgent` | src/main/java/com/support/desk/service/TicketService.java:135 | the agent views of the tickets matching a condition: one view per matching ticket, in store order, as many as there are matching positions |
| `Tickets.TicketsAssociatedToCustomer` | src/main/java/com/support/desk/service/TicketService.java:114-125 | fails with a not-found error exactly when the customer id does not resolve. Otherwise it returns the customer view of each ticket owned by that customer, one per ticket, in store order |
| `Tickets.TicketsByAgent` | src/main/java/com/support/desk/service/TicketService.java:127-136 | fails with a not-found error exactly when the agent id does not resolve. Otherwise it returns the agent view of each ticket assigned to that agent, one per ticket, in store order |
| `Tickets.TicketsByStatus` | src/main/java/com/support/desk/service/TicketService.java:138-142 | returns the customer view of each ticket with that status, one per ticket, in store order; every view returned has that status |
| `Tickets.TicketsByDepartment` | src/main/java/com/support/desk/service/TicketService.java:144-148 | returns the customer view of each ticket of that department, one per ticket, in store order |
| `Tickets.TotalActiveTicketCount` | src/main/java/com/support/desk/service/TicketService.java:150-154 | equals the number of stored tickets whose status is OPEN |
| `Tickets.CommentsByTicket` | src/main/java/com/support/desk/service/TicketService.java:156-165 | fails with a not-found error exactly when no ticket has the public id. Otherwise it lists that ticket's comments in stored order, with only content and creation time |
| `Tickets.AlreadyResolvedMessage` | src/main/java/com/support/desk/service/TicketService.java:110 | the "already Resolved" message differs from the success message |
| `Tickets.EditedTicket` | src/main/java/com/support/desk/service/TicketService.java:84-104 | the three guarded edits of an update; `StatusEditRule`, `CommentEditRule`, `PriorityEditRule` and `EditKeepsIdentity` state each one's effect |
| `Tickets.StatusEditRule` | src/main/java/com/support/desk/service/TicketService.java:84-91 | on a non-resolved ticket, the status changes exactly when a different status is supplied. The resolution time becomes `now` exactly when the supplied status is RESOLVED; otherwise it is unchanged |
| `Tickets.CommentEditRule` | src/main/java/com/support/desk/service/TicketService.java:92-100 | non-empty content appends exactly one comment at the end, by the ticket's customer, with that content and time `now`. Existing comments are untouched. Empty content changes nothing |
| `Tickets.PriorityEditRule` | src/main/java/com/support/desk/service/TicketService.java:101-104 | the priority changes exactly when a different priority is supplied |
| `Tickets.EditKeepsIdentity` | src/main/java/com/support/desk/service/TicketService.java:82-106 | an update never changes the key, public id, customer, title, description, creation time, agent or department |
| `Tickets.EditKeepsCommentOrder` | src/main/java/com/support/desk/service/TicketService.java:92-98 | if the comments are ascending by time and `now` is no earlier than all of them, they stay ascending after the update |
| `Tickets.EditIsSuccessor` | src/main/java/com/support/desk/service/TicketService.java:82-106 | an update of a non-resolved ticket yields a later state of it: identity fixed, comments only appended |
| `Tickets.EvolvesTransitive` | src/main/java/com/support/desk/service/TicketService.java:82 | a chain of operations still keeps identities and keeps resolved tickets frozen |
| `Tickets.ActiveCountAfterReplace` | src/main/java/com/support/desk/service/TicketService.java:150-154 | rewriting one ticket changes the OPEN count only by that ticket leaving or entering OPEN |
| `Tickets.CommentListedAfterUpdate` | src/main/java/com/support/desk/service/TicketService.java:92-98 | after an update adds a comment, the ticket's comment listing is the old listing followed by that comment's content and time |
| `Tickets.FirstKeyMatchIsOnly` | src/main/java/com/support/desk/service/TicketService.java:59 | with distinct internal keys, the first ticket with a key is at the only position holding that key, so the first-match lookup is the lookup by key |
| `Tickets.TicketService.CreateTicket` | src/main/java/com/support/desk/service/TicketService.java:39-55 | with an unknown customer it fails and the store is unchanged. Otherwise it appends exactly one ticket with these fields: the new key; a public id in [1000, 9999]; title and description from the input; status OPEN and priority LOW whatever the input says; the given customer; creation time `now` and deadline `now` + 48 h; no agent, no department, no comments. It returns that ticket's customer view, and the OPEN count grows by one |
| `Tickets.TicketService.AssignTicket` | src/main/java/com/support/desk/service/TicketService.java:57-76 | an unknown ticket key fails with TicketNotFound, checked first; an unknown agent fails with AgentNotFound. Either way the store is unchanged. On success only the found ticket's agent and department change, to the agent and the agent's department. It returns that ticket's customer view, and the OPEN count is unchanged |
| `Tickets.TicketService.UpdateTicket` | src/main/java/com/support/desk/service/TicketService.java:78-112 | a RESOLVED ticket is left unchanged and the "already Resolved" message is returned. An unknown public id or null content fails and leaves the store unchanged. Otherwise only that ticket changes, to the status, comment and priority edits, and the success message is returned. Every outcome keeps identities and keeps resolved tickets frozen |

## Left out

- `AuthService.java` is not part of this model. It only delegates to an authentication manager, a user-details service and a token helper, none of them shown.
- Password hashing internals, token signing and the repositories' persistence mechanics are not modelled. The encoder is a function parameter; the stores are a map and a sequence.
- Logging has no behavioural effect and is not modelled. `@Transactional` is modelled as atomicity: a failing operation leaves the store unchanged.
- `java.util.Random`, `LocalDateTime.now()` and the store's key generation are not modelled. They are inputs: `draw`, `now` and `key`. Calendar arithmetic is reduced to adding seconds.
- `getAllEmployees` and `getEmployeesByDepartment` are stubs that return `null`. `UserService.convertToDTO` is never called. None of them is modelled.
- Public ticket ids are not checked for uniqueness, in the source or in the model. The repository's behaviour when two tickets share a public id is not part of this model; lookups take the first match in store order.
- The comment listing uses the ticket's stored comment order instead of the repository's sort by creation time. The two agree when the `now` values of successive updates do not decrease (`EditKeepsCommentOrder`).
- Null fields of the request objects are not modelled, except update status, priority and content. Examples are a null title, a null role string or a null department.
- The status enum's source is not part of this model. The model uses OPEN, IN_PROGRESS and RESOLVED. Only OPEN and RESOLVED play a role in the logic.
- Roles are string labels. Whether a `Role` row is shared or created per user is not modelled.
- Exception message texts are not modelled, except registration's two messages, the user lookup's message and update's two return strings. The other errors carry the offending id.
- The repository's list order is taken to be store order; the list queries are stated in that order.
