/** The records of src/models.rs: users, persisted schedule blocks, the
    collection that holds them, and the populated block the notifier works on. */
module Models {
  import opened Wrappers
  import opened Mention

  /** A document id (a BSON ObjectId); only its identity matters here. */
  type ObjectId = nat

  /** A volunteer's profile, read-only for the bot. */
  datatype User = User(id: ObjectId, username: string, firstName: string, lastName: string, discordId: string)

  /** A schedule block as persisted: its six role slots hold user ids. Times are
      BSON date-times, milliseconds since the Unix epoch. */
  datatype ScheduleBlock = ScheduleBlock(
    id: ObjectId,
    startTime: int,
    endTime: int,
    blue1: Option<ObjectId>, blue2: Option<ObjectId>, blue3: Option<ObjectId>,
    red1: Option<ObjectId>, red2: Option<ObjectId>, red3: Option<ObjectId>,
    min30: bool,
    min10: bool)

  /** The two warning flags a block carries. */
  datatype Flag = Min30 | Min10

  /** The driver's error, opaque to the bot. */
  datatype DbError = DbError(message: string)

  /** What the database answers to an update: acknowledged, or an error. */
  datatype Reply = Acknowledged | Failed(error: DbError)

  /** The record `b` with flag `f` set: what `{ "$set": { f: true } }` writes. */
  function WithFlag(b: ScheduleBlock, f: Flag): (r: ScheduleBlock)
    ensures r.min30 == (b.min30 || f == Min30)
    ensures r.min10 == (b.min10 || f == Min10)
    ensures r.(min30 := b.min30, min10 := b.min10) == b
  {
    match f
    case Min30 => b.(min30 := true)
    case Min10 => b.(min10 := true)
  }

  /** The collection after `update_one({ "_id": id }, { "$set": { f: true } })`:
      the one record with that id gets flag `f`; a missing id matches nothing. */
  function SetFlag(records: map<ObjectId, ScheduleBlock>, id: ObjectId, f: Flag): (r: map<ObjectId, ScheduleBlock>)
    ensures r.Keys == records.Keys
    ensures forall k :: k in records && k != id ==> r[k] == records[k]
    ensures id in records ==> r[id] == WithFlag(records[id], f)
  {
    if id in records then records[id := WithFlag(records[id], f)] else records
  }

  /** Setting a flag never clears one: every flag that was set stays set. */
  lemma SetFlagMonotone(records: map<ObjectId, ScheduleBlock>, id: ObjectId, f: Flag, k: ObjectId)
    requires k in records
    ensures k in SetFlag(records, id, f)
    ensures records[k].min30 ==> SetFlag(records, id, f)[k].min30
    ensures records[k].min10 ==> SetFlag(records, id, f)[k].min10
  {
  }

  /** Setting a flag twice leaves the collection as setting it once. */
  lemma SetFlagIdempotent(records: map<ObjectId, ScheduleBlock>, id: ObjectId, f: Flag)
    ensures SetFlag(SetFlag(records, id, f), id, f) == SetFlag(records, id, f)
  {
    if id in records {
      var once := SetFlag(records, id, f);
      assert WithFlag(once[id], f) == once[id];
      assert once[id := once[id]] == once;
    }
  }

  /** The `scheduleBlocks` collection, keyed by `_id`. */
  class Store {
    var records: map<ObjectId, ScheduleBlock>

    /** Every record is filed under its own `_id`. */
    ghost predicate Valid()
      reads this
    {
      forall k :: k in records ==> records[k].id == k
    }

    constructor (records: map<ObjectId, ScheduleBlock>)
      requires forall k :: k in records ==> records[k].id == k
      ensures Valid() && this.records == records
    {
      this.records := records;
    }

    /** `update_one` with the filter `{ "_id": id }` and `{ "$set": { f: true } }`.
        The database's answer is the input `reply`; a failed update writes nothing. */
    method UpdateOne(id: ObjectId, f: Flag, reply: Reply) returns (r: Result<(), DbError>)
      requires Valid()
      modifies this
      ensures Valid()
      ensures r.Ok? <==> reply.Acknowledged?
      ensures reply.Failed? ==> r == Err(reply.error)
      ensures records == if r.Ok? then SetFlag(old(records), id, f) else old(records)
      // the filter `{ "_id": id }` touches no document whose `_id` field differs
      ensures forall k :: k in old(records) && old(records)[k].id != id ==> k in records && records[k] == old(records)[k]
    {
      if reply.Acknowledged? {
        records := SetFlag(records, id, f);
        r := Ok(());
      } else {
        r := Err(reply.error);
      }
    }
  }

  /** The ids of the filled slots among `slots`, in slot order. */
  function FilledIds(slots: seq<Option<User>>): seq<string> {
    if slots == [] then []
    else FilledIds(slots[..|slots| - 1]) + SlotIds(slots[|slots| - 1])
  }

  /** The chat id of the user in `slot`, if any. */
  function SlotIds(slot: Option<User>): (ids: seq<string>)
    ensures slot.None? ==> ids == []
    ensures slot.Some? ==> ids == [slot.value.discordId]
  {
    match slot
    case None => []
    case Some(u) => [u.discordId]
  }

  /** No filled slot, no id; every filled slot, one id. */
  lemma {:induction false} FilledIdsEmpty(slots: seq<Option<User>>)
    ensures FilledIds(slots) == [] <==> forall i :: 0 <= i < |slots| ==> slots[i].None?
  {
    if slots != [] {
      var init := slots[..|slots| - 1];
      FilledIdsEmpty(init);
      assert forall i :: 0 <= i < |init| ==> init[i] == slots[i];
    }
  }

  /** The mentions of the first `k + 1` slots extend those of the first `k`
      by the mention of slot `k`, if it is filled. */
  lemma FilledMentionsStep(slots: seq<Option<User>>, k: nat)
    requires k < |slots|
    ensures JoinMentions(FilledIds(slots[..k + 1]))
         == JoinMentions(FilledIds(slots[..k])) + (if slots[k].Some? then PingStr(slots[k].value.discordId) else "")
  {
    assert slots[..k + 1][..k] == slots[..k];
    JoinMentionsAppend(FilledIds(slots[..k]), SlotIds(slots[k]));
  }

  /** One `push_str` of `pings`: if the mentions of the first `k` slots are
      `before`, then `after` (with slot `k`'s mention pushed when it is filled)
      are the mentions of the first `k + 1`. */
  lemma PingsStep(slots: seq<Option<User>>, k: nat, slot: Option<User>, before: string, after: string)
    requires k < |slots| && slots[k] == slot
    requires before == JoinMentions(FilledIds(slots[..k]))
    requires after == before + (if slot.Some? then PingStr(slot.value.discordId) else "")
    ensures after == JoinMentions(FilledIds(slots[..k + 1]))
  {
    FilledMentionsStep(slots, k);
  }

  /** A block with its slots resolved to users (`PopulatedScheduleBlock`), as
      the populate query returns it. Only the two flags are ever changed, so
      the other fields are constants. */
  class PopulatedScheduleBlock {
    const id: ObjectId
    const startTime: int
    const endTime: int
    const blue1: Option<User>
    const blue2: Option<User>
    const blue3: Option<User>
    const red1: Option<User>
    const red2: Option<User>
    const red3: Option<User>
    var min30: bool
    var min10: bool

    constructor (id: ObjectId, startTime: int, endTime: int,
                 blue1: Option<User>, blue2: Option<User>, blue3: Option<User>,
                 red1: Option<User>, red2: Option<User>, red3: Option<User>,
                 min30: bool, min10: bool)
      ensures this.id == id && this.startTime == startTime && this.endTime == endTime
      ensures Slots() == [blue1, blue2, blue3, red1, red2, red3]
      ensures this.min30 == min30 && this.min10 == min10
    {
      this.id, this.startTime, this.endTime := id, startTime, endTime;
      this.blue1, this.blue2, this.blue3 := blue1, blue2, blue3;
      this.red1, this.red2, this.red3 := red1, red2, red3;
      this.min30, this.min10 := min30, min10;
    }

    /** The six slots in their fixed order: blue 1-3, then red 1-3. */
    function Slots(): seq<Option<User>> {
      [blue1, blue2, blue3, red1, red2, red3]
    }

    /** `update_min_30`: records in `store` that the 30-minute warning went
        out, and mirrors that onto this block only if the update succeeded. */
    method UpdateMin30(store: Store, reply: Reply) returns (r: Result<(), DbError>)
      requires store.Valid()
      modifies this`min30, store
      ensures store.Valid()
      ensures r.Ok? <==> reply.Acknowledged?
      ensures reply.Failed? ==> r == Err(reply.error)
      ensures store.records == if r.Ok? then SetFlag(old(store.records), id, Min30) else old(store.records)
      ensures min30 == (old(min30) || r.Ok?)
      ensures min10 == old(min10)
    {
      r := store.UpdateOne(id, Min30, reply);
      if r.Ok? {
        min30 := true;
      }
    }

    /** `update_min_10`: as `update_min_30`, for the 10-minute warning. */
    method UpdateMin10(store: Store, reply: Reply) returns (r: Result<(), DbError>)
      requires store.Valid()
      modifies this`min10, store
      ensures store.Valid()
      ensures r.Ok? <==> reply.Acknowledged?
      ensures reply.Failed? ==> r == Err(reply.error)
      ensures store.records == if r.Ok? then SetFlag(old(store.records), id, Min10) else old(store.records)
      ensures min10 == (old(min10) || r.Ok?)
      ensures min30 == old(min30)
    {
      r := store.UpdateOne(id, Min10, reply);
      if r.Ok? {
        min10 := true;
      }
    }

    /** `pings`: the mentions of the filled slots' users, in slot order; empty
        slots add nothing. */
    method Pings() returns (ping: string)
      ensures ping == JoinMentions(FilledIds(Slots()))
    {
      ghost var slots := Slots();
      ping := "";
      assert slots[..0] == [];
      ghost var before := ping;
      if blue1.Some? {
        ping := ping + PingStr(blue1.value.discordId);
      }
      assert ping == JoinMentions(FilledIds(slots[..1])) by {
        PingsStep(slots, 0, blue1, before, ping);
      }
      before := ping;
      if blue2.Some? {
        ping := ping + PingStr(blue2.value.discordId);
      }
      assert ping == JoinMentions(FilledIds(slots[..2])) by {
        PingsStep(slots, 1, blue2, before, ping);
      }
      before := ping;
      if blue3.Some? {
        ping := ping + PingStr(blue3.value.discordId);
      }
      assert ping == JoinMentions(FilledIds(slots[..3])) by {
        PingsStep(slots, 2, blue3, before, ping);
      }
      before := ping;
      if red1.Some? {
        ping := ping + PingStr(red1.value.discordId);
      }
      assert ping == JoinMentions(FilledIds(slots[..4])) by {
        PingsStep(slots, 3, red1, before, ping);
      }
      before := ping;
      if red2.Some? {
        ping := ping + PingStr(red2.value.discordId);
      }
      assert ping == JoinMentions(FilledIds(slots[..5])) by {
        PingsStep(slots, 4, red2, before, ping);
      }
      before := ping;
      if red3.Some? {
        ping := ping + PingStr(red3.value.discordId);
      }
      assert ping == JoinMentions(FilledIds(slots[..6])) by {
        PingsStep(slots, 5, red3, before, ping);
      }
      assert slots[..6] == slots;
    }
  }

  /** The length of the mention string: each filled slot adds its user's chat
      id and three token characters. */
  lemma PingsLength(b: PopulatedScheduleBlock)
    ensures |JoinMentions(FilledIds(b.Slots()))| == MentionsLength(FilledIds(b.Slots()))
  {
    JoinMentionsLength(FilledIds(b.Slots()));
  }

  /** The mention string is empty exactly when no slot is filled. */
  lemma PingsEmpty(b: PopulatedScheduleBlock)
    ensures JoinMentions(FilledIds(b.Slots())) == "" <==> forall i :: 0 <= i < 6 ==> b.Slots()[i].None?
  {
    FilledIdsEmpty(b.Slots());
    JoinMentionsEmpty(FilledIds(b.Slots()));
  }

  /** The mention string names exactly the filled slots' users, in slot order:
      reading it back gives their chat ids (which are `>`-free snowflakes). */
  lemma PingsReadBack(b: PopulatedScheduleBlock)
    requires forall i :: 0 <= i < 6 && b.Slots()[i].Some? ==> PlainId(b.Slots()[i].value.discordId)
    ensures ParseMentions(JoinMentions(FilledIds(b.Slots()))) == Some(FilledIds(b.Slots()))
  {
    FilledIdsPlain(b.Slots());
    ParseJoinMentions(FilledIds(b.Slots()));
  }

  lemma {:induction false} FilledIdsPlain(slots: seq<Option<User>>)
    requires forall i :: 0 <= i < |slots| && slots[i].Some? ==> PlainId(slots[i].value.discordId)
    ensures forall j :: 0 <= j < |FilledIds(slots)| ==> PlainId(FilledIds(slots)[j])
  {
    if slots != [] {
      var init := slots[..|slots| - 1];
      assert forall i :: 0 <= i < |init| ==> init[i] == slots[i];
      FilledIdsPlain(init);
    }
  }
}
