/** One iteration of the bot's warning loop (`ping_scouters_task`,
    src/main.rs): pick the next block, decide whether a warning is due, record
    it, and build the message that announces it. */
module ScoutingTask {
  import opened Wrappers
  import opened Mention
  import opened Models
  import opened CompTime

  /** The far and near warning distances, in milliseconds before a block starts. */
  const FarWarningMs: int := 30 * MillisPerMinute
  const NearWarningMs: int := 10 * MillisPerMinute

  /** The two warnings a block can receive. */
  datatype Warning = Far | Near

  /** The wording of a warning in the message title. */
  function Label(w: Warning): string {
    match w
    case Far => "30 minutes"
    case Near => "10 minutes"
  }

  /** The flag that records that a warning went out. */
  function FlagOf(w: Warning): Flag {
    match w
    case Far => Min30
    case Near => Min10
  }

  /** The priority chain: the far warning if the block is at most 30 minutes
      away and it has not gone out, else the near warning if the block is at
      most 10 minutes away and it has not gone out, else nothing. */
  function Decide(untilStart: int, min30: bool, min10: bool): (w: Option<Warning>)
    ensures w == Some(Far) ==> untilStart <= FarWarningMs && !min30
    ensures w == Some(Near) ==> untilStart <= NearWarningMs && min30 && !min10
    ensures w.None? ==> untilStart > FarWarningMs || (min30 && (untilStart > NearWarningMs || min10))
    ensures untilStart <= FarWarningMs && !min30 ==> w == Some(Far)
    ensures untilStart <= NearWarningMs && !min10 ==> w.Some?
  {
    if untilStart <= FarWarningMs && !min30 then Some(Far)
    else if untilStart <= NearWarningMs && !min10 then Some(Near)
    else None
  }

  /** The example of a block 25 minutes away whose far warning went out: the
      near warning waits, and fires at 9 minutes. */
  lemma NearWarningScenario()
    ensures Decide(25 * MillisPerMinute, true, false).None?
    ensures Decide(9 * MillisPerMinute, true, false) == Some(Near)
  {
  }

  /** `Utc::now()` is finer than a millisecond, block times are whole
      milliseconds: comparing against `now` floored to milliseconds decides
      "still ahead" and "within the limit" exactly as the nanosecond clock does. */
  lemma FlooredNowDecidesAlike(startMs: int, nowNs: int, limitMs: int)
    ensures (startMs * 1_000_000 > nowNs) == (startMs > nowNs / 1_000_000)
    ensures (startMs * 1_000_000 - nowNs <= limitMs * 1_000_000) == (startMs - nowNs / 1_000_000 <= limitMs)
  {
    var q, r := nowNs / 1_000_000, nowNs % 1_000_000;
    assert nowNs == q * 1_000_000 + r;
  }

  /** The two flags of one block. */
  datatype Flags = Flags(min30: bool, min10: bool)

  /** The flags once warning `w`, if any, went out and was recorded. */
  function Raise(f: Flags, w: Option<Warning>): (g: Flags)
    ensures f.min30 ==> g.min30
    ensures f.min10 ==> g.min10
  {
    match w
    case None => f
    case Some(Far) => f.(min30 := true)
    case Some(Near) => f.(min10 := true)
  }

  /** The warning an iteration that picks a block with flags `f` sends: none
      when the block has no scouters, else what the priority chain decides. */
  function CycleWarning(f: Flags, staffed: bool, untilStart: int): (w: Option<Warning>)
    ensures !staffed ==> w.None?
  {
    if staffed then Decide(untilStart, f.min30, f.min10) else None
  }

  /** The warnings one block receives over successive iterations that pick it:
      in iteration `k` it is `untilStarts[k]` milliseconds before its start and
      has scouters when `staffed[k]`; every flag update succeeds. */
  function Warnings(f: Flags, staffed: seq<bool>, untilStarts: seq<int>): (ws: seq<Option<Warning>>)
    requires |staffed| == |untilStarts|
    ensures |ws| == |untilStarts|
    decreases |untilStarts|
  {
    if untilStarts == [] then []
    else
      var w := CycleWarning(f, staffed[0], untilStarts[0]);
      [w] + Warnings(Raise(f, w), staffed[1..], untilStarts[1..])
  }

  /** How many entries of `ws` are the warning `w`. */
  function Count(ws: seq<Option<Warning>>, w: Warning): nat {
    if ws == [] then 0 else (if ws[0] == Some(w) then 1 else 0) + Count(ws[1..], w)
  }

  /** Each warning goes out at most once per block, and never once its flag is set. */
  lemma {:induction false} WarningsAtMostOnce(f: Flags, staffed: seq<bool>, untilStarts: seq<int>)
    requires |staffed| == |untilStarts|
    ensures Count(Warnings(f, staffed, untilStarts), Far) <= (if f.min30 then 0 else 1)
    ensures Count(Warnings(f, staffed, untilStarts), Near) <= (if f.min10 then 0 else 1)
    decreases |untilStarts|
  {
    if untilStarts != [] {
      var w := CycleWarning(f, staffed[0], untilStarts[0]);
      WarningsAtMostOnce(Raise(f, w), staffed[1..], untilStarts[1..]);
      assert Warnings(f, staffed, untilStarts)[1..] == Warnings(Raise(f, w), staffed[1..], untilStarts[1..]);
    }
  }

  /** For a block whose far flag is unset, every near warning comes after a
      far warning. */
  lemma {:induction false} NearFollowsFar(f: Flags, staffed: seq<bool>, untilStarts: seq<int>)
    requires |staffed| == |untilStarts|
    requires !f.min30
    ensures var ws := Warnings(f, staffed, untilStarts);
      forall j :: 0 <= j < |ws| && ws[j] == Some(Near) ==> exists i :: 0 <= i < j && ws[i] == Some(Far)
    decreases |untilStarts|
  {
    if untilStarts != [] {
      var w := CycleWarning(f, staffed[0], untilStarts[0]);
      var ws, tail := Warnings(f, staffed, untilStarts), Warnings(Raise(f, w), staffed[1..], untilStarts[1..]);
      assert ws == [w] + tail;
      if w == None {
        assert tail == Warnings(f, staffed[1..], untilStarts[1..]);
        NearFollowsFar(f, staffed[1..], untilStarts[1..]);
        forall j | 0 <= j < |ws| && ws[j] == Some(Near)
          ensures exists i :: 0 <= i < j && ws[i] == Some(Far)
        {
          assert j >= 1 && tail[j - 1] == Some(Near);
          assert exists i :: 0 <= i < j - 1 && tail[i] == Some(Far);
          var i :| 0 <= i < j - 1 && tail[i] == Some(Far);
          assert ws[i + 1] == Some(Far);
        }
      } else {
        assert w == Some(Far);
        forall j | 0 <= j < |ws| && ws[j] == Some(Near)
          ensures exists i :: 0 <= i < j && ws[i] == Some(Far)
        {
          assert ws[0] == Some(Far);
        }
      }
    }
  }

  /** The index of the first block that starts strictly after `now`
      (`filter(start_time > now).next()`), or `None`. */
  function NextIndex(blocks: seq<PopulatedScheduleBlock>, now: int): (r: Option<nat>)
    ensures r.Some? ==> r.value < |blocks| && blocks[r.value].startTime > now
    ensures r.Some? ==> forall j :: 0 <= j < r.value ==> blocks[j].startTime <= now
    ensures r.None? <==> forall j :: 0 <= j < |blocks| ==> blocks[j].startTime <= now
  {
    if blocks == [] then None
    else if blocks[0].startTime > now then Some(0)
    else
      match NextIndex(blocks[1..], now)
      case None => None
      case Some(i) => Some(i + 1)
  }

  /** With the blocks in ascending start order, as the populate query sorts
      them, the chosen block is the earliest of those still ahead. */
  lemma NextIsEarliest(blocks: seq<PopulatedScheduleBlock>, now: int)
    requires forall i, j :: 0 <= i < j < |blocks| ==> blocks[i].startTime <= blocks[j].startTime
    requires NextIndex(blocks, now).Some?
    ensures forall j :: 0 <= j < |blocks| && blocks[j].startTime > now ==>
      blocks[NextIndex(blocks, now).value].startTime <= blocks[j].startTime
  {
  }

  /** The scan of the fetched blocks for the first one still ahead. */
  method NextBlock(blocks: seq<PopulatedScheduleBlock>, now: int) returns (r: Option<PopulatedScheduleBlock>)
    ensures NextIndex(blocks, now).None? ==> r.None?
    ensures NextIndex(blocks, now).Some? ==> r == Some(blocks[NextIndex(blocks, now).value])
  {
    var i := 0;
    while i < |blocks| && blocks[i].startTime <= now
      invariant 0 <= i <= |blocks|
      invariant forall j :: 0 <= j < i ==> blocks[j].startTime <= now
    {
      i := i + 1;
    }
    r := if i < |blocks| then Some(blocks[i]) else None;
  }

  /** No scouter in any of the six slots. */
  predicate NoScouters(b: PopulatedScheduleBlock) {
    b.blue1.None? && b.blue2.None? && b.blue3.None? && b.red1.None? && b.red2.None? && b.red3.None?
  }

  /** A block has no scouters exactly when its mention string is empty. */
  lemma NoScoutersNoMentions(b: PopulatedScheduleBlock)
    ensures NoScouters(b) <==> JoinMentions(FilledIds(b.Slots())) == ""
  {
    var s := b.Slots();
    assert s[0] == b.blue1 && s[1] == b.blue2 && s[2] == b.blue3;
    assert s[3] == b.red1 && s[4] == b.red2 && s[5] == b.red3;
    PingsEmpty(b);
  }

  /** One field of the message's embed. */
  datatype EmbedField = EmbedField(name: string, value: string, inline: bool)

  /** The embed: colour, title, fields and footer. */
  datatype Embed = Embed(color: (nat, nat, nat), title: string, fields: seq<EmbedField>, footer: string)

  /** What is posted to the channel: the mention string and the embed. */
  datatype Message = Message(content: string, embed: Embed)

  /** The role names in slot order. */
  const RoleNames: seq<string> := ["blue 1", "blue 2", "blue 3", "red 1", "red 2", "red 3"]

  /** The name shown for an empty slot ("No One" and a pensive face). */
  const NoOne: string := "No One \U{1F614}"

  const EmbedColor: (nat, nat, nat) := (84, 182, 229)

  const Footer: string := "Sussy scouter has been oxidized \U{1F980}, rejoice!"

  /** The field for one slot: the user's full name and their role, or the
      placeholder for nobody. */
  function SlotField(slot: Option<User>, role: string): EmbedField {
    match slot
    case Some(u) => EmbedField(u.firstName + " " + u.lastName, "You are scouting " + role, false)
    case None => EmbedField(NoOne, "Is scouting " + role, false)
  }

  /** The six fields, one per slot, in slot order. */
  function Fields(b: PopulatedScheduleBlock): (fs: seq<EmbedField>)
    ensures |fs| == 6
    ensures forall i :: 0 <= i < 6 ==> fs[i] == SlotField(b.Slots()[i], RoleNames[i])
  {
    [SlotField(b.blue1, "blue 1"), SlotField(b.blue2, "blue 2"), SlotField(b.blue3, "blue 3"),
     SlotField(b.red1, "red 1"), SlotField(b.red2, "red 2"), SlotField(b.red3, "red 3")]
  }

  /** Field `i` tells whether slot `i` is filled, and by whom. */
  lemma FieldShowsSlot(b: PopulatedScheduleBlock, i: nat)
    requires i < 6
    ensures !Fields(b)[i].inline
    ensures Fields(b)[i].value == "You are scouting " + RoleNames[i] <==> b.Slots()[i].Some?
    ensures b.Slots()[i].Some? ==>
      Fields(b)[i].name == b.Slots()[i].value.firstName + " " + b.Slots()[i].value.lastName
    ensures b.Slots()[i].None? ==>
      Fields(b)[i].name == NoOne && Fields(b)[i].value == "Is scouting " + RoleNames[i]
  {
    var f := Fields(b)[i];
    if b.Slots()[i].None? {
      assert f.value[0] == 'I';
      assert ("You are scouting " + RoleNames[i])[0] == 'Y';
    }
  }

  /** The title: the block's start and end as `HH:MM` in the competition
      zone, then the warning's wording. */
  function Title(b: PopulatedScheduleBlock, scoutingIn: string): (t: string)
    ensures |t| == 31 + |scoutingIn|
    ensures t[..13] == "Scouters for " && t[18..21] == " - " && t[26..31] == ", in "
    ensures t[13..18] == ClockText(b.startTime) && t[21..26] == ClockText(b.endTime)
    ensures t[31..] == scoutingIn
  {
    "Scouters for " + ClockText(b.startTime) + " - " + ClockText(b.endTime) + ", in " + scoutingIn
  }

  /** The title's times read back as the block's start and end on the
      competition's wall clock. */
  lemma TitleReadsBack(b: PopulatedScheduleBlock, scoutingIn: string)
    ensures ParseClock(Title(b, scoutingIn)[13..18]) == Some(LocalClock(b.startTime))
    ensures ParseClock(Title(b, scoutingIn)[21..26]) == Some(LocalClock(b.endTime))
  {
    ClockTextReadsBack(b.startTime);
    ClockTextReadsBack(b.endTime);
  }

  /** The message that announces warning `scoutingIn` for block `b`. */
  function Notification(b: PopulatedScheduleBlock, scoutingIn: string): (m: Message)
    ensures m.content == JoinMentions(FilledIds(b.Slots()))
    ensures m.embed.fields == Fields(b) && m.embed.title == Title(b, scoutingIn)
  {
    Message(JoinMentions(FilledIds(b.Slots())), Embed(EmbedColor, Title(b, scoutingIn), Fields(b), Footer))
  }

  /** The chat platform's answer to sending a message. */
  datatype SendReply = Delivered | Undelivered(reason: string)

  /** The errors that end the task (each `?` of the loop). */
  datatype TaskError = Database(db: DbError) | Delivery(reason: string)

  /** How an iteration ends: the loop goes on, or the task returns an error. */
  datatype Step = Continue | Stop(error: TaskError)

  /** What one iteration does with the chosen block `block`, given the outcomes
      of the flag update and of the send. */
  twostate predicate BlockHandled(block: PopulatedScheduleBlock, now: int, store: Store,
                                  update: Reply, send: SendReply, new sent: Option<Message>, step: Step)
    reads block, store
  {
    var w := Decide(block.startTime - now, old(block.min30), old(block.min10));
    if NoScouters(block) || w.None? then
      // nothing is due: no flag moves, nothing is sent
      sent.None? && step == Continue && store.records == old(store.records) &&
      block.min30 == old(block.min30) && block.min10 == old(block.min10)
    else
      // exactly the due warning's flag is set, in the store and on the block
      store.records == (if update.Acknowledged? then SetFlag(old(store.records), block.id, FlagOf(w.value)) else old(store.records)) &&
      block.min30 == (old(block.min30) || (update.Acknowledged? && w.value == Far)) &&
      block.min10 == (old(block.min10) || (update.Acknowledged? && w.value == Near)) &&
      // a failed update ends the task and sends nothing
      (update.Failed? ==> sent.None? && step == Stop(Database(update.error))) &&
      // after a recorded update the message is sent; a failed send ends the task
      (update.Acknowledged? ==>
        sent == Some(Notification(block, Label(w.value))) &&
        step == (if send.Delivered? then Continue else Stop(Delivery(send.reason))))
  }

  /** The body of `if let Some(mut block)`: skip an empty block, run the
      priority chain, record the warning, then build and send the message. */
  method HandleBlock(block: PopulatedScheduleBlock, now: int, store: Store, update: Reply, send: SendReply)
    returns (sent: Option<Message>, step: Step)
    requires store.Valid()
    modifies block, store
    ensures store.Valid()
    ensures BlockHandled(block, now, store, update, send, sent, step)
    ensures sent.Some? ==> update.Acknowledged?
  {
    if block.blue1.None? && block.blue2.None? && block.blue3.None?
       && block.red1.None? && block.red2.None? && block.red3.None? {
      return None, Continue;
    }
    var timeTillBlock := block.startTime - now;
    var scoutingIn: string;
    if timeTillBlock <= FarWarningMs && !block.min30 {
      var r := block.UpdateMin30(store, update);
      if r.Err? {
        return None, Stop(Database(r.error));
      }
      scoutingIn := "30 minutes";
    } else if timeTillBlock <= NearWarningMs && !block.min10 {
      var r := block.UpdateMin10(store, update);
      if r.Err? {
        return None, Stop(Database(r.error));
      }
      scoutingIn := "10 minutes";
    } else {
      return None, Continue;
    }
    var content := block.Pings();
    var message := Message(content, Embed(EmbedColor, Title(block, scoutingIn), Fields(block), Footer));
    sent := Some(message);
    step := if send.Delivered? then Continue else Stop(Delivery(send.reason));
  }

  /** An iteration that handles a block with an acknowledged update moves its
      flags exactly as one step of `Warnings` does, and sends a message exactly
      when that step yields a warning, worded for it. */
  twostate lemma HandledIsCycleWarning(block: PopulatedScheduleBlock, now: int, store: Store,
                                       update: Reply, send: SendReply, new sent: Option<Message>, step: Step)
    requires update.Acknowledged?
    requires BlockHandled(block, now, store, update, send, sent, step)
    ensures var before := Flags(old(block.min30), old(block.min10));
      var w := CycleWarning(before, !NoScouters(block), block.startTime - now);
      Flags(block.min30, block.min10) == Raise(before, w) &&
      (sent.Some? <==> w.Some?) &&
      (w.Some? ==> sent == Some(Notification(block, Label(w.value))))
  {
  }

  /** One iteration of the loop, after the three-second sleep. `fetched` is the
      outcome of `find_all_populated`, `now` the current time in milliseconds,
      `update` and `send` the outcomes of the flag update and of the send. */
  method Cycle(fetched: Result<seq<PopulatedScheduleBlock>, DbError>, now: int, store: Store,
               update: Reply, send: SendReply)
    returns (sent: Option<Message>, step: Step)
    requires store.Valid()
    modifies store, if fetched.Ok? then fetched.value else []
    ensures store.Valid()
    // a failed fetch ends the task
    ensures fetched.Err? ==> sent.None? && step == Stop(Database(fetched.error)) && store.records == old(store.records)
    // no block ahead: nothing happens
    ensures fetched.Ok? && NextIndex(fetched.value, now).None? ==>
      sent.None? && step == Continue && store.records == old(store.records)
    // otherwise the first block ahead is handled
    ensures fetched.Ok? && NextIndex(fetched.value, now).Some? ==>
      BlockHandled(fetched.value[NextIndex(fetched.value, now).value], now, store, update, send, sent, step)
    // no other block's flags move
    ensures fetched.Ok? ==> forall j :: 0 <= j < |fetched.value| ==>
      (NextIndex(fetched.value, now).None? || fetched.value[j] != fetched.value[NextIndex(fetched.value, now).value]) ==>
        fetched.value[j].min30 == old(fetched.value[j].min30) && fetched.value[j].min10 == old(fetched.value[j].min10)
  {
    if fetched.Err? {
      return None, Stop(Database(fetched.error));
    }
    var blocks := fetched.value;
    ghost var next := NextIndex(blocks, now);
    var block := NextBlock(blocks, now);
    if block.Some? {
      assert next.Some? && block.value == blocks[next.value];
      sent, step := HandleBlock(block.value, now, store, update, send);
    } else {
      assert next.None?;
      sent, step := None, Continue;
    }
  }
}
