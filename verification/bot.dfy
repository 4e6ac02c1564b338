/** The bot's in-memory laundry state and the operations on it: loading the
    machine database, the per-user college selection, the lists of available
    and in-use washers, watching a washer, joining a college's queue, and the
    handler that runs whenever a washer reports a new state. Messages the bot
    would send are appended to an outbox instead. */
module Bot {
  import opened Strings
  import opened Registry
  import opened Callbacks

  datatype Option<T> = None | Some(value: T)

  /** Why a request had no effect. Each stands for an exception the handler
      raises (a missing key) or a refusal it answers with. */
  datatype Error =
    | NoSelection        // `users[id]`: the user never picked a college
    | UnknownCollege     // `machines[college]`: the selection is not a catalog college
    | UnknownMachine     // the update names no washer of the registry
    | MachinesAvailable  // "No need to queue, there are available washers."
    | AlreadyQueued      // "You are already in the queue."

  datatype Result<T> = Ok(value: T) | Err(error: Error)

  datatype Kind =
    | Completed   // "<washer> has completed!"
    | YourTurn    // "It's your turn! <washer> is now available."
    | WillNotify  // "You will be notified automatically when your wash is done."

  /** A message to one chat about one washer. */
  datatype Notice = Notice(id: string, kind: Kind, washer: string)

  /** The watchers of a washer; a washer nobody has watched has none. */
  function Watchers(watch: map<string, seq<string>>, washer: string): seq<string>
  {
    if washer in watch then watch[washer] else []
  }

  /** One completion notice per watcher, in the order of the watch list. */
  function Completions(ws: seq<string>, washer: string): (r: seq<Notice>)
    ensures |r| == |ws|
    ensures forall k :: 0 <= k < |ws| ==> r[k] == Notice(ws[k], Completed, washer)
  {
    if ws == [] then []
    else Completions(ws[..|ws| - 1], washer) + [Notice(ws[|ws| - 1], Completed, washer)]
  }

  /** The inner loop of `loader`: every washer of one college, entered in use
      at time now. */
  method LoadRoom(washers: seq<string>, now: int) returns (room: Room)
    ensures room == InitialRoom(washers, now)
  {
    room := map[];
    var i := 0;
    while i < |washers|
      invariant 0 <= i <= |washers|
      invariant forall w :: w in room <==> w in washers[..i]
      invariant forall w | w in room :: room[w] == Machine(InUse, now)
    {
      room := room[washers[i] := Machine(InUse, now)];
      assert washers[..i + 1] == washers[..i] + [washers[i]];
      i := i + 1;
    }
    assert washers[..i] == washers;
    assert room == InitialRoom(washers, now);
  }

  class LaundryBot {
    /** college -> washer -> {state, updated} */
    var machines: Rooms
    /** the colleges of the machine database */
    var colleges: set<string>
    /** washer -> chat ids to notify when it completes */
    var watch: map<string, seq<string>>
    /** college -> chat ids waiting for a washer there, first in line first */
    var queue: map<string, seq<string>>
    /** chat id -> the college it selected */
    var users: map<string, string>
    /** the messages sent so far */
    var outbox: seq<Notice>

    /** Every catalog college has a queue, and nobody waits twice in it. */
    ghost predicate Valid()
      reads this
    {
      && colleges == machines.Keys
      && machines.Keys <= queue.Keys
      && forall c | c in machines :: Distinct(queue[c])
    }

    /** `loader`: the three tables come back as saved; every catalog college
        gets an empty queue and every washer is entered in use at time now. */
    constructor Load(catalog: Catalog, now: int, savedUsers: map<string, string>,
                     savedWatch: map<string, seq<string>>, savedQueue: map<string, seq<string>>)
      ensures Valid()
      ensures machines == InitialRegistry(catalog, now)
      ensures colleges == catalog.Keys
      ensures queue.Keys == savedQueue.Keys + catalog.Keys
      ensures forall c | c in catalog :: queue[c] == []
      ensures forall c | c in savedQueue && c !in catalog :: queue[c] == savedQueue[c]
      ensures users == savedUsers && watch == savedWatch && outbox == []
    {
      var reg: Rooms := map[];
      var cs: set<string> := {};
      var q := savedQueue;
      var rest := catalog.Keys;
      while rest != {}
        invariant rest <= catalog.Keys
        invariant cs == catalog.Keys - rest
        invariant reg.Keys == cs
        invariant forall c | c in reg :: reg[c] == InitialRoom(catalog[c], now)
        invariant q.Keys == savedQueue.Keys + cs
        invariant forall c | c in cs :: q[c] == []
        invariant forall c | c in savedQueue && c !in cs :: q[c] == savedQueue[c]
        decreases rest
      {
        var college :| college in rest;
        cs := cs + {college};
        q := q[college := []];
        var room := LoadRoom(catalog[college], now);
        reg := reg[college := room];
        rest := rest - {college};
      }
      assert reg == InitialRegistry(catalog, now);
      machines, colleges, queue := reg, cs, q;
      users, watch, outbox := savedUsers, savedWatch, [];
    }

    /** `getavailable`: the washers of the college in state 0, sorted, each
        once. */
    method GetAvailable(college: string) returns (r: seq<string>)
      requires college in machines
      ensures IsListing(r, WashersIn(machines[college], Available))
    {
      r := ListByState(machines[college], Available);
    }

    /** The "Check Available Washers" button: the available washers of the
        user's college. */
    method AvailableFor(id: string) returns (r: Result<seq<string>>)
      ensures id !in users ==> r == Err(NoSelection)
      ensures id in users && users[id] !in machines ==> r == Err(UnknownCollege)
      ensures id in users && users[id] in machines ==>
                r.Ok? && IsListing(r.value, WashersIn(machines[users[id]], Available))
    {
      if id !in users {
        return Err(NoSelection);
      }
      var college := users[id];
      if college !in machines {
        return Err(UnknownCollege);
      }
      var available := GetAvailable(college);
      return Ok(available);
    }

    /** The "Notify when Done" button: the washers of the user's college in
        state 1, sorted, each once, offered for watching. */
    method InUseFor(id: string) returns (r: Result<seq<string>>)
      ensures id !in users ==> r == Err(NoSelection)
      ensures id in users && users[id] !in machines ==> r == Err(UnknownCollege)
      ensures id in users && users[id] in machines ==>
                r.Ok? && IsListing(r.value, WashersIn(machines[users[id]], InUse))
    {
      if id !in users {
        return Err(NoSelection);
      }
      var college := users[id];
      if college !in machines {
        return Err(UnknownCollege);
      }
      var active := ListByState(machines[college], InUse);
      return Ok(active);
    }

    /** A "ROOM=" button: the user's selection becomes the college named by
        the button; every other user's selection stays. */
    method SelectCollege(id: string, data: string)
      requires Valid() && StartsWith(data, RoomPrefix)
      modifies this`users
      ensures Valid()
      ensures users == old(users)[id := Payload(data, RoomPrefix)]
    {
      users := users[id := Payload(data, RoomPrefix)];
    }

    /** A "WASHER=" button: the user is appended to the watch list of the
        washer named by the button, which is created if absent; no other
        washer's list changes. */
    method AddWatcher(id: string, data: string)
      requires Valid() && StartsWith(data, WasherPrefix)
      modifies this`watch
      ensures Valid()
      ensures watch == old(watch)[Payload(data, WasherPrefix) :=
                                  Watchers(old(watch), Payload(data, WasherPrefix)) + [id]]
    {
      var washer := Payload(data, WasherPrefix);
      watch := watch[washer := Watchers(watch, washer) + [id]];
    }

    /** The "Join Queue" button. Refused while the college has an available
        washer or when the user already waits there; otherwise the user goes
        to the back of the queue and is told how many wait ahead. */
    method JoinQueue(id: string) returns (r: Result<nat>)
      requires Valid()
      modifies this`queue
      ensures Valid()
      ensures id !in users ==> r == Err(NoSelection) && queue == old(queue)
      ensures id in users && users[id] !in machines ==> r == Err(UnknownCollege) && queue == old(queue)
      ensures id in users && users[id] in machines ==>
                var college := users[id];
                var waiting := old(queue)[college];
                if WashersIn(machines[college], Available) != {} then
                  r == Err(MachinesAvailable) && queue == old(queue)
                else if id in waiting then
                  r == Err(AlreadyQueued) && queue == old(queue)
                else
                  r == Ok(|waiting|) && queue == old(queue)[college := waiting + [id]]
    {
      if id !in users {
        return Err(NoSelection);
      }
      var college := users[id];
      if college !in machines {
        return Err(UnknownCollege);
      }
      var available := GetAvailable(college);
      if |available| > 0 {
        assert available[0] in WashersIn(machines[college], Available);
        return Err(MachinesAvailable);
      }
      if id in queue[college] {
        return Err(AlreadyQueued);
      }
      var count := |queue[college]|;
      queue := queue[college := queue[college] + [id]];
      return Ok(count);
    }

    /** `machineupdate`: a washer reports a new state at time now. An unknown
        washer changes nothing. Otherwise its state and time are recorded; when
        the state is 0 (free), every watcher of the washer is told it
        completed, and the first user waiting in the college's queue, if any,
        leaves the queue, is told it is their turn and is appended to the
        washer's watch list. Watchers stay on the list after being told. */
    method MachineUpdate(washer: string, state: int, college: string, now: int)
      returns (r: Result<Option<string>>)
      requires Valid()
      modifies this`machines, this`watch, this`queue, this`outbox
      ensures Valid()
      ensures !Found(old(machines), college, washer) ==>
                && r == Err(UnknownMachine)
                && machines == old(machines) && watch == old(watch)
                && queue == old(queue) && outbox == old(outbox)
      ensures Found(old(machines), college, washer) ==>
                machines == old(machines)[college := old(machines)[college][washer := Machine(state, now)]]
      ensures Found(old(machines), college, washer) && state != Available ==>
                && r == Ok(None)
                && watch == old(watch) && queue == old(queue) && outbox == old(outbox)
      ensures Found(old(machines), college, washer) && state == Available ==>
                var told := old(outbox) + Completions(Watchers(old(watch), washer), washer);
                var waiting := old(queue)[college];
                if waiting == [] then
                  && r == Ok(None)
                  && watch == old(watch) && queue == old(queue) && outbox == told
                else
                  && r == Ok(Some(waiting[0]))
                  && queue == old(queue)[college := waiting[1..]]
                  && watch == old(watch)[washer := Watchers(old(watch), washer) + [waiting[0]]]
                  && outbox == told + [Notice(waiting[0], YourTurn, washer), Notice(waiting[0], WillNotify, washer)]
    {
      if !Found(machines, college, washer) {
        return Err(UnknownMachine);
      }
      machines := machines[college := machines[college][washer := Machine(state, now)]];
      if state != Available {
        return Ok(None);
      }
      var ws := Watchers(watch, washer);
      var sent: seq<Notice> := [];
      var i := 0;
      while i < |ws|
        invariant 0 <= i <= |ws|
        invariant sent == Completions(ws[..i], washer)
      {
        sent := sent + [Notice(ws[i], Completed, washer)];
        i := i + 1;
        assert ws[..i][..i - 1] == ws[..i - 1];
      }
      assert ws[..i] == ws;
      outbox := outbox + sent;
      var waiting := queue[college];
      if waiting == [] {
        return Ok(None);
      }
      var next := waiting[0];
      queue := queue[college := waiting[1..]];
      outbox := outbox + [Notice(next, YourTurn, washer)];
      watch := watch[washer := Watchers(watch, washer) + [next]];
      outbox := outbox + [Notice(next, WillNotify, washer)];
      return Ok(Some(next));
    }
  }
}
