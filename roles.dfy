/** The role workflow as values: a user asks to become a host, and an
    administrator decides, which always clears the request. */
module Roles {
  import opened Models

  /** The action value that approves a request; any other action denies it. */
  const ApproveAction: string := "approve"

  /** The user after asking for the host role: the flag is set and the role
      is kept. */
  function WithRequest(u: User): User
  {
    u.(roleChangeRequested := true)
  }

  /** The user after an administrator's decision: approval makes them a Host,
      any other action keeps their role, and either way the flag is cleared.
      Neither the flag nor the current role is consulted first. */
  function Decided(u: User, action: string): User
  {
    u.(role := if action == ApproveAction then Host else u.role, roleChangeRequested := false)
  }

  /** The ids of the users whose request is pending. */
  function PendingRequests(users: map<UserId, User>): set<UserId>
  {
    set id | id in users && users[id].roleChangeRequested
  }

  /** Asking again has no further effect. */
  lemma RequestIsIdempotent(users: map<UserId, User>, id: UserId)
    requires id in users
    ensures var once := users[id := WithRequest(users[id])];
            once[id := WithRequest(once[id])] == once
  {
  }

  /** A request adds exactly its user to the pending set. */
  lemma PendingAfterRequest(users: map<UserId, User>, id: UserId)
    requires id in users
    ensures PendingRequests(users[id := WithRequest(users[id])]) == PendingRequests(users) + {id}
  {
    var after := users[id := WithRequest(users[id])];
    forall x ensures x in PendingRequests(after) <==> x in PendingRequests(users) + {id} {
      if x != id {
        assert x in after <==> x in users;
      }
    }
  }

  /** A decision removes exactly its user from the pending set. */
  lemma PendingAfterDecision(users: map<UserId, User>, id: UserId, action: string)
    requires id in users
    ensures PendingRequests(users[id := Decided(users[id], action)]) == PendingRequests(users) - {id}
  {
    var after := users[id := Decided(users[id], action)];
    forall x ensures x in PendingRequests(after) <==> x in PendingRequests(users) - {id} {
      if x != id {
        assert x in after <==> x in users;
      }
    }
  }

  /** The life of a new user: a request followed by approval makes a Host
      with no pending request, and followed by any other action gives back
      the Passenger the user was. */
  lemma RequestThenDecide(id: UserId, action: string)
    ensures Decided(WithRequest(NewUser(id)), ApproveAction) == User(id, Host, false)
    ensures action != ApproveAction ==> Decided(WithRequest(NewUser(id)), action) == NewUser(id)
  {
  }
}
