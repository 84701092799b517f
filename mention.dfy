/** The chat-platform mention token (`ping_str`, src/main.rs) and the reading of
    a run of such tokens back into the user ids it names. */
module Mention {
  import opened Wrappers

  /** `<@id>`: the token that makes the chat platform notify user `id`. */
  function PingStr(id: string): (r: string)
    ensures |r| == |id| + 3
  {
    "<@" + id + ">"
  }

  /** An id that its mention token delimits unambiguously: it has no `>`. */
  predicate PlainId(id: string) {
    forall i :: 0 <= i < |id| ==> id[i] != '>'
  }

  /** The mention tokens of `ids`, concatenated in order. */
  function JoinMentions(ids: seq<string>): string {
    if ids == [] then "" else PingStr(ids[0]) + JoinMentions(ids[1..])
  }

  /** The sum, over `ids`, of each id's length plus the three token characters. */
  function MentionsLength(ids: seq<string>): nat {
    if ids == [] then 0 else |ids[0]| + 3 + MentionsLength(ids[1..])
  }

  /** The first index at or after `from` holding `>`, or `|s|` if there is none. */
  function CloseAt(s: string, from: nat): (k: nat)
    requires from <= |s|
    ensures from <= k <= |s|
    ensures k < |s| ==> s[k] == '>'
    ensures forall i :: from <= i < k ==> s[i] != '>'
    decreases |s| - from
  {
    if from == |s| || s[from] == '>' then from else CloseAt(s, from + 1)
  }

  /** Reads a concatenation of mention tokens back into the ids it carries;
      `None` when the text is not such a concatenation. */
  function ParseMentions(s: string): Option<seq<string>>
    decreases |s|
  {
    if s == [] then Some([])
    else if |s| < 2 || s[0] != '<' || s[1] != '@' then None
    else
      var k := CloseAt(s, 2);
      if k == |s| then None
      else
        match ParseMentions(s[k + 1..])
        case None => None
        case Some(rest) => Some([s[2..k]] + rest)
  }

  lemma {:induction false} JoinMentionsAppend(a: seq<string>, b: seq<string>)
    ensures JoinMentions(a + b) == JoinMentions(a) + JoinMentions(b)
  {
    if a == [] {
      assert a + b == b;
    } else {
      assert (a + b)[1..] == a[1..] + b;
      JoinMentionsAppend(a[1..], b);
    }
  }

  /** The mention string is exactly as long as its ids plus three characters each. */
  lemma {:induction false} JoinMentionsLength(ids: seq<string>)
    ensures |JoinMentions(ids)| == MentionsLength(ids)
  {
    if ids != [] {
      JoinMentionsLength(ids[1..]);
    }
  }

  /** The mention string of no ids is empty, and only that one. */
  lemma JoinMentionsEmpty(ids: seq<string>)
    ensures JoinMentions(ids) == "" <==> ids == []
  {
    if ids != [] {
      assert |JoinMentions(ids)| >= |PingStr(ids[0])|;
    }
  }

  /** Round trip: the ids can be read back, in order, from their mentions. */
  lemma {:induction false} ParseJoinMentions(ids: seq<string>)
    requires forall i :: 0 <= i < |ids| ==> PlainId(ids[i])
    ensures ParseMentions(JoinMentions(ids)) == Some(ids)
  {
    if ids != [] {
      var id, rest := ids[0], JoinMentions(ids[1..]);
      var s := JoinMentions(ids);
      assert s == PingStr(id) + rest;
      assert PlainId(id);
      var k := CloseAt(s, 2);
      assert s[|id| + 2] == '>';
      assert forall i :: 2 <= i < |id| + 2 ==> s[i] == id[i - 2];
      assert k == |id| + 2;
      assert s[2..k] == id;
      assert s[k + 1..] == rest;
      assert s[0] == '<' && s[1] == '@' && k < |s|;
      ParseJoinMentions(ids[1..]);
      assert [id] + ids[1..] == ids;
    }
  }
}
