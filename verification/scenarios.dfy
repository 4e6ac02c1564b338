/** Scenarios of the bot on a small machine database, proved from the contracts
    of its operations alone. */
module Scenarios {
  import opened Strings
  import opened Registry
  import opened Callbacks
  import opened Bot

  lemma ShortHasNoOccurrence(s: string, p: string)
    requires |s| < |p|
    ensures !Contains(s, p)
  {
  }

  /** A user picks a college with its button and is recorded as having picked
      it. */
  method Select(bot: LaundryBot, id: string, college: string)
    requires bot.Valid() && !Contains(college, RoomPrefix)
    modifies bot`users
    ensures bot.Valid() && bot.users == old(bot.users)[id := college]
  {
    RoomRoundTrip(college);
    bot.SelectCollege(id, RoomButton(college));
  }

  /** A watcher of a washer is told when it completes, the college's empty
      queue is left alone, and since the watch list is kept the watcher is
      told again the next time the washer completes. */
  method WatchThenComplete() returns (first: seq<Notice>, second: seq<Notice>, waiting: seq<string>)
    ensures first == [Notice("U1", Completed, "M1")]
    ensures waiting == []
    ensures second == [Notice("U1", Completed, "M1"), Notice("U1", Completed, "M1")]
  {
    var bot := new LaundryBot.Load(map["A" := ["M1", "M2"]], 0, map[], map[], map[]);
    ShortHasNoOccurrence("A", RoomPrefix);
    Select(bot, "U1", "A");
    ShortHasNoOccurrence("M1", WasherPrefix);
    WasherRoundTrip("M1");
    bot.AddWatcher("U1", WasherButton("M1"));
    var r := bot.MachineUpdate("M1", Available, "A", 10);
    first, waiting := bot.outbox, bot.queue["A"];
    r := bot.MachineUpdate("M1", InUse, "A", 20);
    r := bot.MachineUpdate("M1", Available, "A", 30);
    second := bot.outbox;
  }

  /** A user of a college without a free washer, not yet waiting, joins the
      back of its queue. */
  method JoinWhileBusy(bot: LaundryBot, id: string, college: string) returns (r: Result<nat>)
    requires bot.Valid() && id in bot.users && bot.users[id] == college && college in bot.machines
    requires WashersIn(bot.machines[college], Available) == {} && id !in bot.queue[college]
    modifies bot`queue
    ensures bot.Valid()
    ensures r == Ok(|old(bot.queue[college])|)
    ensures bot.queue[college] == old(bot.queue[college]) + [id]
  {
    r := bot.JoinQueue(id);
  }

  /** Joining a college with a free washer is refused. */
  method JoinWhileFree(bot: LaundryBot, id: string, college: string) returns (r: Result<nat>)
    requires bot.Valid() && id in bot.users && bot.users[id] == college && college in bot.machines
    requires WashersIn(bot.machines[college], Available) != {}
    modifies bot`queue
    ensures bot.Valid() && bot.queue == old(bot.queue)
    ensures r == Err(MachinesAvailable)
  {
    r := bot.JoinQueue(id);
  }

  /** A washer frees up while someone waits: the first in line is served and
      watches the washer. */
  method FreeWhileQueued(bot: LaundryBot, college: string, washer: string, now: int)
    returns (r: Result<Option<string>>)
    requires bot.Valid() && Found(bot.machines, college, washer) && bot.queue[college] != []
    modifies bot`machines, bot`watch, bot`queue, bot`outbox
    ensures bot.Valid() && bot.machines.Keys == old(bot.machines.Keys)
    ensures bot.machines[college].Keys == old(bot.machines[college].Keys)
    ensures bot.machines[college][washer].state == Available
    ensures r == Ok(Some(old(bot.queue[college])[0]))
    ensures bot.queue[college] == old(bot.queue[college])[1..]
    ensures Watchers(bot.watch, washer) == old(Watchers(bot.watch, washer)) + [old(bot.queue[college])[0]]
  {
    r := bot.MachineUpdate(washer, Available, college, now);
  }

  /** A washer starts a wash: only its state changes. */
  method Occupy(bot: LaundryBot, college: string, washer: string, now: int)
    requires bot.Valid() && Found(bot.machines, college, washer)
    modifies bot`machines, bot`watch, bot`queue, bot`outbox
    ensures bot.Valid() && bot.machines.Keys == old(bot.machines.Keys)
    ensures bot.machines[college] == old(bot.machines[college])[washer := Machine(InUse, now)]
    ensures bot.queue == old(bot.queue) && bot.watch == old(bot.watch)
  {
    var r := bot.MachineUpdate(washer, InUse, college, now);
  }

  /** Four users pick the one college, whose one washer is in use; three of
      them join its queue and are told 0, 1 and 2 wait ahead of them. */
  method QueueThree() returns (bot: LaundryBot, ahead: seq<Result<nat>>)
    ensures fresh(bot) && bot.Valid()
    ensures ahead == [Ok(0), Ok(1), Ok(2)]
    ensures "A" in bot.machines && bot.machines["A"] == map["M1" := Machine(InUse, 0)]
    ensures bot.queue["A"] == ["U1", "U2", "U3"]
    ensures "U4" in bot.users && bot.users["U4"] == "A"
    ensures Watchers(bot.watch, "M1") == []
  {
    bot := new LaundryBot.Load(map["A" := ["M1"]], 0, map[], map[], map[]);
    assert bot.machines["A"].Keys == {"M1"};
    assert bot.machines["A"] == map["M1" := Machine(InUse, 0)];
    ShortHasNoOccurrence("A", RoomPrefix);
    Select(bot, "U1", "A");
    Select(bot, "U2", "A");
    Select(bot, "U3", "A");
    Select(bot, "U4", "A");
    assert WashersIn(bot.machines["A"], Available) == {};
    var j1 := JoinWhileBusy(bot, "U1", "A");
    var j2 := JoinWhileBusy(bot, "U2", "A");
    var j3 := JoinWhileBusy(bot, "U3", "A");
    ahead := [j1, j2, j3];
  }

  /** The washer frees up: the first in line is served and watches it, and
      the fourth user, who now finds a free washer, is refused. */
  method ServeFirst() returns (bot: LaundryBot, ahead: seq<Result<nat>>, first: Result<Option<string>>, refused: Result<nat>)
    ensures fresh(bot) && bot.Valid()
    ensures ahead == [Ok(0), Ok(1), Ok(2)]
    ensures first == Ok(Some("U1")) && refused == Err(MachinesAvailable)
    ensures Found(bot.machines, "A", "M1")
    ensures bot.queue["A"] == ["U2", "U3"] && Watchers(bot.watch, "M1") == ["U1"]
  {
    bot, ahead := QueueThree();
    first := FreeWhileQueued(bot, "A", "M1", 10);
    assert "M1" in WashersIn(bot.machines["A"], Available);
    refused := JoinWhileFree(bot, "U4", "A");
  }

  /** Users queued while every washer is in use are served in the order they
      joined, each automatically set to watch the washer they are given;
      joining while a washer is free is refused. */
  method DispatchInArrivalOrder()
    returns (ahead: seq<Result<nat>>, served: seq<Result<Option<string>>>, refused: Result<nat>, watching: seq<string>)
    ensures ahead == [Ok(0), Ok(1), Ok(2)]
    ensures served == [Ok(Some("U1")), Ok(Some("U2")), Ok(Some("U3"))]
    ensures refused == Err(MachinesAvailable)
    ensures watching == ["U1", "U2", "U3"]
  {
    var bot, d1;
    bot, ahead, d1, refused := ServeFirst();
    Occupy(bot, "A", "M1", 20);
    var d2 := FreeWhileQueued(bot, "A", "M1", 30);
    Occupy(bot, "A", "M1", 40);
    var d3 := FreeWhileQueued(bot, "A", "M1", 50);
    served := [d1, d2, d3];
    watching := Watchers(bot.watch, "M1");
  }
}
