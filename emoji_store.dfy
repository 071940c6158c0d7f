/** The local vote store: the emoji the visitor picked and the list of votes
    cast in this browser (src/store/emojiStore.ts). */
module EmojiStore {

  /** `Array(n).fill(icon)`. */
  function Repeat(icon: string, n: nat): (r: seq<string>)
    ensures |r| == n
    ensures forall i :: 0 <= i < n ==> r[i] == icon
  {
    if n == 0 then [] else [icon] + Repeat(icon, n - 1)
  }

  /** The number of random copies drawn for each icon: `Math.floor(Math.random() * 10 + 5)`
      lies between 5 and 14. */
  predicate ValidDraws(copies: seq<nat>)
  {
    forall i :: 0 <= i < |copies| ==> 5 <= copies[i] <= 14
  }

  /** `EMOJI_DATA.flatMap(emoji => Array(copies).fill(emoji.icon))`: for each icon in order,
      its drawn number of copies. */
  function InitialVotes(icons: seq<string>, copies: seq<nat>): (votes: seq<string>)
    requires |icons| == |copies|
  {
    if icons == [] then [] else Repeat(icons[0], copies[0]) + InitialVotes(icons[1..], copies[1..])
  }

  /** Every initial vote is one of the icons, and there are between 5 and 14 per icon. */
  lemma {:induction false} InitialVotesShape(icons: seq<string>, copies: seq<nat>)
    requires |icons| == |copies| && ValidDraws(copies)
    ensures 5 * |icons| <= |InitialVotes(icons, copies)| <= 14 * |icons|
    ensures forall v :: v in InitialVotes(icons, copies) ==> v in icons
  {
    if icons != [] {
      ValidDrawsTail(copies);
      InitialVotesShape(icons[1..], copies[1..]);
      var head := Repeat(icons[0], copies[0]);
      var tail := InitialVotes(icons[1..], copies[1..]);
      forall v | v in head + tail ensures v in icons {
        if v in head {
          assert v == icons[0];
        } else {
          assert v in icons[1..];
        }
      }
    }
  }

  lemma ValidDrawsTail(copies: seq<nat>)
    requires |copies| > 0 && ValidDraws(copies)
    ensures ValidDraws(copies[1..])
  {
    forall i | 0 <= i < |copies[1..]| ensures 5 <= copies[1..][i] <= 14 {
      assert copies[1..][i] == copies[i + 1];
    }
  }

  function SumOf(copies: seq<nat>): (total: nat)
  {
    if copies == [] then 0 else copies[0] + SumOf(copies[1..])
  }

  /** The seeded list holds exactly the drawn copies, nothing more. */
  lemma {:induction false} InitialVotesLength(icons: seq<string>, copies: seq<nat>)
    requires |icons| == |copies|
    ensures |InitialVotes(icons, copies)| == SumOf(copies)
  {
    if icons != [] {
      InitialVotesLength(icons[1..], copies[1..]);
    }
  }

  /** The copies of icon `i` occupy the positions after the copies of the icons before it:
      the seeded list is each icon's block in `EMOJI_DATA` order. */
  lemma {:induction false} InitialVotesBlock(icons: seq<string>, copies: seq<nat>, i: nat, j: nat)
    requires |icons| == |copies| && i < |icons| && j < copies[i]
    ensures SumOf(copies[..i]) + j < |InitialVotes(icons, copies)|
    ensures InitialVotes(icons, copies)[SumOf(copies[..i]) + j] == icons[i]
  {
    var head := Repeat(icons[0], copies[0]);
    var rest := InitialVotes(icons[1..], copies[1..]);
    if i == 0 {
      assert copies[..0] == [];
      assert (head + rest)[j] == head[j];
    } else {
      InitialVotesBlock(icons[1..], copies[1..], i - 1, j);
      assert copies[..i][1..] == copies[1..][..i - 1];
      assert SumOf(copies[..i]) == copies[0] + SumOf(copies[1..][..i - 1]);
      assert (head + rest)[SumOf(copies[..i]) + j] == rest[SumOf(copies[1..][..i - 1]) + j];
    }
  }

  /** No icon occurs twice in the table. */
  predicate Distinct(icons: seq<string>)
  {
    forall a, b :: 0 <= a < b < |icons| ==> icons[a] != icons[b]
  }

  /** With distinct icons, each icon has exactly its own drawn number of seeded votes,
      so between 5 and 14. */
  lemma {:induction false} InitialVotesTally(icons: seq<string>, copies: seq<nat>, i: nat)
    requires |icons| == |copies| && ValidDraws(copies) && Distinct(icons) && i < |icons|
    ensures Tally(InitialVotes(icons, copies), icons[i]) == copies[i]
    ensures 5 <= Tally(InitialVotes(icons, copies), icons[i]) <= 14
  {
    var head := Repeat(icons[0], copies[0]);
    var rest := InitialVotes(icons[1..], copies[1..]);
    TallyConcat(head, rest, icons[i]);
    TallyRepeat(icons[0], copies[0], icons[i]);
    ValidDrawsTail(copies);
    assert Distinct(icons[1..]) by {
      forall a, b | 0 <= a < b < |icons[1..]| ensures icons[1..][a] != icons[1..][b] {
        assert icons[1..][a] == icons[a + 1] && icons[1..][b] == icons[b + 1];
      }
    }
    if i == 0 {
      InitialVotesShape(icons[1..], copies[1..]);
      assert icons[0] !in icons[1..] by {
        forall k | 0 <= k < |icons[1..]| ensures icons[1..][k] != icons[0] {
          assert icons[1..][k] == icons[k + 1];
        }
      }
      TallyAbsent(rest, icons[0]);
    } else {
      InitialVotesTally(icons[1..], copies[1..], i - 1);
      assert icons[1..][i - 1] == icons[i];
      assert icons[0] != icons[i];
    }
  }

  /** How many votes in `votes` are for `emoji`. */
  function Tally(votes: seq<string>, emoji: string): (n: nat)
    ensures n <= |votes|
  {
    if votes == [] then 0 else (if votes[0] == emoji then 1 else 0) + Tally(votes[1..], emoji)
  }

  lemma {:induction false} TallyAppend(votes: seq<string>, v: string, emoji: string)
    ensures Tally(votes + [v], emoji) == Tally(votes, emoji) + (if v == emoji then 1 else 0)
  {
    if votes == [] {
      assert [] + [v] == [v];
    } else {
      assert (votes + [v])[1..] == votes[1..] + [v];
      TallyAppend(votes[1..], v, emoji);
    }
  }

  lemma {:induction false} TallyConcat(a: seq<string>, b: seq<string>, emoji: string)
    ensures Tally(a + b, emoji) == Tally(a, emoji) + Tally(b, emoji)
  {
    if a == [] {
      assert a + b == b;
    } else {
      assert (a + b)[1..] == a[1..] + b;
      TallyConcat(a[1..], b, emoji);
    }
  }

  lemma {:induction false} TallyRepeat(icon: string, n: nat, emoji: string)
    ensures Tally(Repeat(icon, n), emoji) == if icon == emoji then n else 0
  {
    if n > 0 {
      assert Repeat(icon, n)[1..] == Repeat(icon, n - 1);
      TallyRepeat(icon, n - 1, emoji);
    }
  }

  lemma {:induction false} TallyAbsent(votes: seq<string>, emoji: string)
    requires emoji !in votes
    ensures Tally(votes, emoji) == 0
  {
    if votes != [] {
      assert emoji !in votes[1..];
      TallyAbsent(votes[1..], emoji);
    }
  }

  class Store {
    var selectedEmoji: string
    var emojiVotes: seq<string>

    /** Nothing selected; the votes are seeded with `copies[i]` copies of `icons[i]`.
        The icon list and the random draws are parameters. */
    constructor (icons: seq<string>, copies: seq<nat>)
      requires |icons| == |copies| && ValidDraws(copies)
      ensures selectedEmoji == ""
      ensures emojiVotes == InitialVotes(icons, copies)
    {
      selectedEmoji := "";
      emojiVotes := InitialVotes(icons, copies);
    }

    /** Sets the selection and nothing else. */
    method SetSelectedEmoji(emoji: string)
      modifies this
      ensures selectedEmoji == emoji
      ensures emojiVotes == old(emojiVotes)
    {
      selectedEmoji := emoji;
    }

    /** Without a selection nothing happens; otherwise the selected emoji is appended
        to the votes, whose earlier entries stay as they were. The selection is kept. */
    method CastVote()
      modifies this
      ensures selectedEmoji == old(selectedEmoji)
      ensures old(selectedEmoji) == "" ==> emojiVotes == old(emojiVotes)
      ensures old(selectedEmoji) != "" ==> emojiVotes == old(emojiVotes) + [old(selectedEmoji)]
      ensures forall e :: Tally(emojiVotes, e) == old(Tally(emojiVotes, e))
                          + (if e == old(selectedEmoji) && e != "" then 1 else 0)
    {
      if selectedEmoji == "" {
        return;
      }
      forall e ensures Tally(emojiVotes + [selectedEmoji], e) == Tally(emojiVotes, e) + (if e == selectedEmoji then 1 else 0) {
        TallyAppend(emojiVotes, selectedEmoji, e);
      }
      emojiVotes := emojiVotes + [selectedEmoji];
    }
  }
}
