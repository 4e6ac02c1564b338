/** The machine registry: for every college, its washers with their state and
    the time of their last recorded change. */
module Registry {
  import opened Strings

  /** The states the code tests for; any other integer is stored as given. */
  const Available: int := 0
  const InUse: int := 1

  datatype Machine = Machine(state: int, updated: int)

  /** The static machine database: college -> its washers. */
  type Catalog = map<string, seq<string>>

  /** Washer -> machine, for one college. */
  type Room = map<string, Machine>

  /** College -> room. */
  type Rooms = map<string, Room>

  /** The room `loader` builds for one college: each of its washers, in use,
      stamped with the load time. */
  function InitialRoom(washers: seq<string>, now: int): Room
  {
    map w | w in washers :: Machine(InUse, now)
  }

  /** The registry `loader` builds: a room for every catalog college and for
      nothing else. */
  function InitialRegistry(catalog: Catalog, now: int): Rooms
  {
    map c | c in catalog :: InitialRoom(catalog[c], now)
  }

  /** After loading, the registry holds exactly the washers of the catalog,
      each under its own college, each in use since the load time. */
  lemma InitialRegistryContents(catalog: Catalog, now: int, college: string, washer: string)
    ensures Found(InitialRegistry(catalog, now), college, washer) <==>
              college in catalog && washer in catalog[college]
    ensures Found(InitialRegistry(catalog, now), college, washer) ==>
              InitialRegistry(catalog, now)[college][washer] == Machine(InUse, now)
  {
  }

  /** The registry has an entry for this washer of this college. */
  predicate Found(reg: Rooms, college: string, washer: string)
  {
    college in reg && washer in reg[college]
  }

  /** The washers of a room that are in the given state. */
  ghost function WashersIn(room: Room, state: int): set<string>
  {
    set w | w in room && room[w].state == state
  }

  /** r lists exactly the washers ws, in increasing order, each once. */
  ghost predicate IsListing(r: seq<string>, ws: set<string>)
  {
    StrictlySorted(r) && forall w :: w in r <==> w in ws
  }

  /** A set of washers has exactly one listing. */
  lemma {:induction false} ListingUnique(r1: seq<string>, r2: seq<string>, ws: set<string>)
    requires IsListing(r1, ws) && IsListing(r2, ws)
    ensures r1 == r2
    decreases |r1|
  {
    ListingEmpty(r1, ws);
    ListingEmpty(r2, ws);
    if r1 != [] {
      var a, b := r1[0], r2[0];
      if a != b {
        ListingHeadIsLeast(r1, ws, b);
        ListingHeadIsLeast(r2, ws, a);
        LessAsymmetric(a, b);
      }
      ListingTail(r1, ws);
      ListingTail(r2, ws);
      ListingUnique(r1[1..], r2[1..], ws - {a});
      assert r1 == [a] + r1[1..] && r2 == [a] + r2[1..];
    }
  }

  lemma ListingEmpty(r: seq<string>, ws: set<string>)
    requires IsListing(r, ws)
    ensures r == [] <==> ws == {}
  {
    if r != [] {
      assert r[0] in ws;
    }
  }

  /** The first element of a listing is below every other washer listed. */
  lemma ListingHeadIsLeast(r: seq<string>, ws: set<string>, w: string)
    requires IsListing(r, ws) && r != [] && w in ws && w != r[0]
    ensures Less(r[0], w)
  {
    assert w in r;
    var k :| 0 <= k < |r| && r[k] == w;
  }

  /** Removing the first element of a listing lists the rest of the set. */
  lemma ListingTail(r: seq<string>, ws: set<string>)
    requires IsListing(r, ws) && r != []
    ensures IsListing(r[1..], ws - {r[0]})
  {
    forall w | w in r[1..]
      ensures w != r[0]
    {
      var k :| 0 <= k < |r[1..]| && r[1..][k] == w;
      assert Less(r[0], r[k + 1]);
      LessIrreflexive(w);
    }
  }

  /** The washers of a room in the given state, sorted: the loop of
      `getavailable` (state 0) and of the "Notify when Done" menu (state 1),
      each followed by `sort()`. */
  method ListByState(room: Room, state: int) returns (r: seq<string>)
    ensures IsListing(r, WashersIn(room, state))
  {
    var found: seq<string> := [];
    var rest := room.Keys;
    while rest != {}
      invariant rest <= room.Keys
      invariant Distinct(found)
      invariant forall w :: w in found <==> w in room && w !in rest && room[w].state == state
      decreases rest
    {
      var w :| w in rest;
      if room[w].state == state {
        found := found + [w];
      }
      rest := rest - {w};
    }
    SortStrict(found);
    r := Sort(found);
  }

  /** Line 129 reads `machines[washer]['updated']`, indexing the college-keyed
      registry with a washer name. */
  predicate FoundAsWritten(reg: Rooms, washer: string)
  {
    washer in reg && "updated" in reg[washer]
  }

  /** With the registry `loader` builds, the lookup as written fails for every
      washer whose name is not also a college name, while the lookup by college
      and washer succeeds. */
  lemma LookupAsWrittenMisses(catalog: Catalog, now: int, college: string, washer: string)
    requires college in catalog && washer in catalog[college] && washer !in catalog
    ensures !FoundAsWritten(InitialRegistry(catalog, now), washer)
    ensures Found(InitialRegistry(catalog, now), college, washer)
  {
  }
}
