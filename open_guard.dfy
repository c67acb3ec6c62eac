/**
 * The two reopen guards of GuiOpenHelper: the UUIDs of the players whose
 * dialog is being opened right now, and of the players who have just
 * authenticated. Every operation takes a possibly null player.
 */
module OpenGuard {
  import opened Wrappers
  import opened Host

  /** The two sets, as one value. */
  datatype Guards = Guards(opening: set<Uuid>, authenticated: set<Uuid>)

  /** The UUID of a possibly null player, as a set of at most one element. */
  function Id(p: Option<Player>): set<Uuid> {
    if p.Some? then {p.value.uuid} else {}
  }

  function AddOpening(g: Guards, p: Option<Player>): Guards {
    g.(opening := g.opening + Id(p))
  }

  function RemoveOpening(g: Guards, p: Option<Player>): Guards {
    g.(opening := g.opening - Id(p))
  }

  function AddAuthenticated(g: Guards, p: Option<Player>): Guards {
    g.(authenticated := g.authenticated + Id(p))
  }

  function RemoveAuthenticated(g: Guards, p: Option<Player>): Guards {
    g.(authenticated := g.authenticated - Id(p))
  }

  predicate InOpening(g: Guards, p: Option<Player>) {
    p.Some? && p.value.uuid in g.opening
  }

  predicate InAuthenticated(g: Guards, p: Option<Player>) {
    p.Some? && p.value.uuid in g.authenticated
  }

  /** After an add the player is in the opening set; after a remove it is not. */
  lemma OpeningAddRemove(g: Guards, p: Player)
    ensures InOpening(AddOpening(g, Some(p)), Some(p))
    ensures !InOpening(RemoveOpening(g, Some(p)), Some(p))
  {
  }

  /** The same laws for the authenticated set. */
  lemma AuthenticatedAddRemove(g: Guards, p: Player)
    ensures InAuthenticated(AddAuthenticated(g, Some(p)), Some(p))
    ensures !InAuthenticated(RemoveAuthenticated(g, Some(p)), Some(p))
  {
  }

  /** An operation on one set leaves the other set as it was. */
  lemma SetsIndependent(g: Guards, p: Option<Player>)
    ensures AddOpening(g, p).authenticated == RemoveOpening(g, p).authenticated == g.authenticated
    ensures AddAuthenticated(g, p).opening == RemoveAuthenticated(g, p).opening == g.opening
  {
  }

  /** A null player changes nothing and is in neither set. */
  lemma NullPlayerIgnored(g: Guards)
    ensures AddOpening(g, None) == RemoveOpening(g, None) == g
    ensures AddAuthenticated(g, None) == RemoveAuthenticated(g, None) == g
    ensures !InOpening(g, None) && !InAuthenticated(g, None)
  {
  }

  /** Adding twice is adding once; other players' memberships never change. */
  lemma AddIdempotent(g: Guards, p: Option<Player>, q: Player)
    ensures AddOpening(AddOpening(g, p), p) == AddOpening(g, p)
    ensures AddAuthenticated(AddAuthenticated(g, p), p) == AddAuthenticated(g, p)
    ensures p != Some(q) && (p.Some? ==> p.value.uuid != q.uuid) ==>
      && (InOpening(AddOpening(g, p), Some(q)) <==> InOpening(g, Some(q)))
      && (InOpening(RemoveOpening(g, p), Some(q)) <==> InOpening(g, Some(q)))
      && (InAuthenticated(AddAuthenticated(g, p), Some(q)) <==> InAuthenticated(g, Some(q)))
      && (InAuthenticated(RemoveAuthenticated(g, p), Some(q)) <==> InAuthenticated(g, Some(q)))
  {
  }

  /** The static sets as an object. */
  class GuardSets {
    var opening: set<Uuid>
    var authenticated: set<Uuid>

    function State(): Guards
      reads this
    {
      Guards(opening, authenticated)
    }

    constructor ()
      ensures State() == Guards({}, {})
    {
      opening, authenticated := {}, {};
    }

    /** `addToOpeningList`. */
    method AddToOpeningList(p: Option<Player>)
      modifies this
      ensures State() == AddOpening(old(State()), p)
    {
      if p.Some? {
        opening := opening + {p.value.uuid};
      }
    }

    /** `removeFromOpeningList`. */
    method RemoveFromOpeningList(p: Option<Player>)
      modifies this
      ensures State() == RemoveOpening(old(State()), p)
    {
      if p.Some? {
        opening := opening - {p.value.uuid};
      }
    }

    /** `isInOpeningList`. */
    predicate IsInOpeningList(p: Option<Player>)
      reads this
    {
      InOpening(State(), p)
    }

    /** `addToAuthenticatedList`. */
    method AddToAuthenticatedList(p: Option<Player>)
      modifies this
      ensures State() == AddAuthenticated(old(State()), p)
    {
      if p.Some? {
        authenticated := authenticated + {p.value.uuid};
      }
    }

    /** `removeFromAuthenticatedList`. */
    method RemoveFromAuthenticatedList(p: Option<Player>)
      modifies this
      ensures State() == RemoveAuthenticated(old(State()), p)
    {
      if p.Some? {
        authenticated := authenticated - {p.value.uuid};
      }
    }

    /** `isInAuthenticatedList`. */
    predicate IsInAuthenticatedList(p: Option<Player>)
      reads this
    {
      InAuthenticated(State(), p)
    }

    /** `clearAll`: both sets emptied. */
    method ClearAll()
      modifies this
      ensures State() == Guards({}, {})
      ensures OpeningListSize() == 0 && AuthenticatedListSize() == 0
    {
      opening, authenticated := {}, {};
    }

    /** `getOpeningListSize`. */
    function OpeningListSize(): (n: nat)
      reads this
      ensures n == 0 <==> opening == {}
    {
      |opening|
    }

    /** `getAuthenticatedListSize`. */
    function AuthenticatedListSize(): (n: nat)
      reads this
      ensures n == 0 <==> authenticated == {}
    {
      |authenticated|
    }
  }
}
