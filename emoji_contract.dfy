/** The Soroban contract that keeps an append-only log of emoji votes in its
    instance storage (emoji-contract/contracts/hello-world/src/lib.rs). */
module EmojiContract {
  import opened Common

  /** Ledger timestamps are unsigned 64-bit integers. */
  newtype u64 = x: int | 0 <= x < 0x1_0000_0000_0000_0000

  /** Soroban `Symbol` and `Address` values are compared only for equality here. */
  type Symbol = string
  type Address = string

  datatype EmojiRecord = EmojiRecord(emoji: Symbol, user: Address, timestamp: u64)

  /** The number of records in `rs` that carry emoji `e`. */
  function CountOf(rs: seq<EmojiRecord>, e: Symbol): (n: nat)
    ensures n <= |rs|
  {
    if rs == [] then 0
    else (if rs[0].emoji == e then 1 else 0) + CountOf(rs[1..], e)
  }

  /** Appending one record adds one to the count of its emoji and nothing to the others. */
  lemma {:induction false} CountOfAppend(rs: seq<EmojiRecord>, r: EmojiRecord, e: Symbol)
    ensures CountOf(rs + [r], e) == CountOf(rs, e) + (if r.emoji == e then 1 else 0)
  {
    if rs == [] {
      assert [] + [r] == [r];
    } else {
      assert (rs + [r])[1..] == rs[1..] + [r];
      CountOfAppend(rs[1..], r, e);
    }
  }

  /** An emoji has a positive count exactly when some record carries it. */
  lemma {:induction false} CountOfPositive(rs: seq<EmojiRecord>, e: Symbol)
    ensures CountOf(rs, e) > 0 <==> exists i :: 0 <= i < |rs| && rs[i].emoji == e
  {
    if rs != [] {
      CountOfPositive(rs[1..], e);
      if CountOf(rs[1..], e) > 0 {
        var i :| 0 <= i < |rs[1..]| && rs[1..][i].emoji == e;
        assert rs[i + 1].emoji == e;
      }
      if exists i :: 0 <= i < |rs| && rs[i].emoji == e {
        var i :| 0 <= i < |rs| && rs[i].emoji == e;
        if i > 0 {
          assert rs[1..][i - 1].emoji == e;
        }
      }
    }
  }

  /** Every record counts towards its own emoji: the count of an emoji equals the
      total number of votes exactly when every record carries that emoji. */
  lemma {:induction false} CountOfAll(rs: seq<EmojiRecord>, e: Symbol)
    ensures CountOf(rs, e) == |rs| <==> forall i :: 0 <= i < |rs| ==> rs[i].emoji == e
  {
    if rs != [] {
      CountOfAll(rs[1..], e);
      if forall i :: 0 <= i < |rs| ==> rs[i].emoji == e {
        assert forall i :: 0 <= i < |rs[1..]| ==> rs[1..][i].emoji == rs[i + 1].emoji;
      }
      if CountOf(rs, e) == |rs| {
        assert rs[0].emoji == e;
        forall i | 0 <= i < |rs| ensures rs[i].emoji == e {
          if i > 0 { assert rs[i] == rs[1..][i - 1]; }
        }
      }
    }
  }

  /** One deployed contract instance. */
  class Contract {
    /** The instance-storage entry under the key "records"; `None` until the first vote. */
    var stored: Option<seq<EmojiRecord>>

    /** A freshly deployed instance has nothing stored and reads as zero votes. */
    constructor ()
      ensures stored == None
      ensures GetRecords() == [] && |GetRecords()| == 0
    {
      stored := None;
    }

    /** The stored records, or the empty vector when the key is absent. */
    function GetRecords(): (rs: seq<EmojiRecord>)
      reads this
      ensures stored.None? ==> rs == []
      ensures stored.Some? ==> rs == stored.value
    {
      match stored
      case Some(records) => records
      case None => []
    }

    /** Appends one record stamped with the ledger time `now` and returns the emoji.
        The `name` argument is not stored, and the same user may vote any number of times. */
    method RecordEmoji(emoji: Symbol, name: Symbol, user: Address, now: u64) returns (r: Symbol)
      modifies this
      ensures r == emoji
      ensures stored.Some?
      ensures GetRecords() == old(GetRecords()) + [EmojiRecord(emoji, user, now)]
      ensures |GetRecords()| == |old(GetRecords())| + 1
      ensures GetRecords()[..|old(GetRecords())|] == old(GetRecords())
      ensures forall x :: CountOf(GetRecords(), x) == old(CountOf(GetRecords(), x)) + (if x == emoji then 1 else 0)
    {
      var record := EmojiRecord(emoji, user, now);
      var records := GetRecords();
      records := records + [record];
      stored := Some(records);
      forall x ensures CountOf(GetRecords(), x) == old(CountOf(GetRecords(), x)) + (if x == emoji then 1 else 0) {
        CountOfAppend(old(GetRecords()), record, x);
      }
      r := emoji;
    }

    /** Returns the whole log, unchanged; reading modifies nothing. */
    method GetEmojiData() returns (rs: seq<EmojiRecord>)
      ensures rs == GetRecords()
    {
      rs := GetRecords();
    }

    /** The number of votes ever recorded. */
    method GetTotalVotes() returns (n: nat)
      ensures n == |GetRecords()|
      ensures stored.None? ==> n == 0
    {
      n := |GetRecords()|;
    }

    /** Counts, with a loop over the log, the records that carry `emoji`. */
    method GetEmojiCount(emoji: Symbol) returns (count: nat)
      ensures count == CountOf(GetRecords(), emoji)
      ensures count <= |GetRecords()|
    {
      var records := GetRecords();
      count := 0;
      for i := 0 to |records|
        invariant count == CountOf(records[..i], emoji)
      {
        CountOfAppend(records[..i], records[i], emoji);
        assert records[..i + 1] == records[..i] + [records[i]];
        if records[i].emoji == emoji {
          count := count + 1;
        }
      }
      assert records[..|records|] == records;
    }
  }

  /** The contract keeps no per-user state: one user voting twice on a fresh
      instance leaves two records, both counted. */
  method RepeatedVotesAllCount(user: Address, emoji: Symbol, t1: u64, t2: u64)
    returns (total: nat, count: nat)
    ensures total == 2 && count == 2
  {
    var c := new Contract();
    var _ := c.RecordEmoji(emoji, "first", user, t1);
    var _ := c.RecordEmoji(emoji, "second", user, t2);
    total := c.GetTotalVotes();
    count := c.GetEmojiCount(emoji);
  }
}
