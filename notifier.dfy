/**
 The `group-participants.update` listener as a specification: the messages it
 sends for one membership change, one per participant, in the order given.
 */
module Notifier {
  import opened Wrappers
  import opened Strings
  import opened Events

  /** `participant.split('@')[0]`: the phone-number part of a participant id. */
  function UserPart(participant: string): (r: string)
    ensures r <= participant && '@' !in r
    ensures |r| < |participant| ==> participant[|r|] == '@'
  {
    FirstField(participant, '@')
  }

  /** `👋 Welcome @${participant.split('@')[0]}!` */
  function WelcomeText(participant: string): string {
    "👋 Welcome @" + UserPart(participant) + "!"
  }

  /** `👋 Goodbye @${participant.split('@')[0]}!` */
  function GoodbyeText(participant: string): string {
    "👋 Goodbye @" + UserPart(participant) + "!"
  }

  /** The actions the listener answers. */
  predicate Announced(action: string) {
    action == "add" || action == "remove"
  }

  /** The text for one participant of an announced action. */
  function NoticeText(action: string, participant: string): string
    requires Announced(action)
  {
    if action == "add" then WelcomeText(participant) else GoodbyeText(participant)
  }

  /** What one iteration of the loop sends: a mention of the participant for `add` and `remove`, nothing otherwise. */
  function NoticeFor(id: string, participant: string, action: string): (r: seq<Reply>)
    ensures |r| == if Announced(action) then 1 else 0
    ensures r != [] ==> r[0].target == id && r[0].quoted == None && r[0].mentions == [participant]
    ensures action == "add" ==> r[0].text == WelcomeText(participant)
    ensures action == "remove" ==> r[0].text == GoodbyeText(participant)
  {
    if Announced(action) then [Reply(id, NoticeText(action, participant), None, [participant])] else []
  }

  /** For `add` and `remove`, the one message is the participant's notice, mentioning that participant. */
  lemma NoticeForAnnounced(id: string, participant: string, action: string)
    requires Announced(action)
    ensures NoticeFor(id, participant, action) == [Reply(id, NoticeText(action, participant), None, [participant])]
  {
  }

  /**
   Everything the loop over `participants` sends, iteration by iteration:
   as many messages as participants for `add` and `remove`, none for any
   other action.
   */
  function GroupNotices(id: string, participants: seq<string>, action: string): (r: seq<Reply>)
    ensures |r| == if Announced(action) then |participants| else 0
  {
    if participants == [] then []
    else
      var n := |participants| - 1;
      GroupNotices(id, participants[..n], action) + NoticeFor(id, participants[n], action)
  }

  /** One more participant adds that participant's messages at the end. */
  lemma GroupNoticesStep(id: string, participants: seq<string>, action: string, i: nat)
    requires i < |participants|
    ensures GroupNotices(id, participants[..i + 1], action)
         == GroupNotices(id, participants[..i], action) + NoticeFor(id, participants[i], action)
  {
    assert participants[..i + 1][..i] == participants[..i];
  }

  /**
   The k-th message goes to the group, mentions exactly the k-th participant,
   and carries the welcome or goodbye text for that participant.
   */
  lemma {:induction false} GroupNoticeAt(id: string, participants: seq<string>, action: string, k: nat)
    requires Announced(action) && k < |participants|
    ensures var r := GroupNotices(id, participants, action);
            |r| == |participants| &&
            r[k] == Reply(id, NoticeText(action, participants[k]), None, [participants[k]])
  {
    var n := |participants| - 1;
    var r := GroupNotices(id, participants, action);
    var prev := GroupNotices(id, participants[..n], action);
    var last := NoticeFor(id, participants[n], action);
    var want := Reply(id, NoticeText(action, participants[k]), None, [participants[k]]);
    GroupNoticesStep(id, participants, action, n);
    assert participants[..n + 1] == participants;
    assert r == prev + last;
    if k < n {
      GroupNoticeAt(id, participants[..n], action, k);
      assert participants[..n][k] == participants[k];
      assert prev[k] == want;
      assert r[k] == prev[k];
    } else {
      NoticeForAnnounced(id, participants[n], action);
      assert last == [want];
      assert r[k] == last[0];
    }
  }

  /** Membership changes announced in two batches give the same messages as one batch of both. */
  lemma {:induction false} GroupNoticesAppend(id: string, ps: seq<string>, qs: seq<string>, action: string)
    ensures GroupNotices(id, ps + qs, action) == GroupNotices(id, ps, action) + GroupNotices(id, qs, action)
  {
    if qs == [] {
      assert ps + qs == ps;
    } else {
      var n := |qs| - 1;
      assert (ps + qs)[..|ps + qs| - 1] == ps + qs[..n];
      assert (ps + qs)[|ps + qs| - 1] == qs[n];
      GroupNoticesAppend(id, ps, qs[..n], action);
    }
  }

  /**
   The text shows the participant's number right after an `@`, under a
   welcome for `add` and a farewell for `remove`.
   */
  lemma NoticeTextMentions(action: string, participant: string)
    requires Announced(action)
    ensures Contains(NoticeText(action, participant), UserPart(participant))
    ensures action == "add" ==> StartsWith(NoticeText(action, participant), "👋 Welcome @")
    ensures action == "remove" ==> StartsWith(NoticeText(action, participant), "👋 Goodbye @")
  {
    var u := UserPart(participant);
    if action == "add" {
      ContainsMiddle("👋 Welcome @", u, "!");
    } else {
      ContainsMiddle("👋 Goodbye @", u, "!");
    }
  }

  /** Adding `A@g.us` and `B@g.us` to group G sends G one welcome for A and then one for B. */
  lemma AddTwoScenario(g: string)
    ensures GroupNotices(g, ["A@g.us", "B@g.us"], "add")
         == [Reply(g, "👋 Welcome @A!", None, ["A@g.us"]), Reply(g, "👋 Welcome @B!", None, ["B@g.us"])]
  {
    assert "A@g.us" == "A" + ['@'] + "g.us";
    assert "B@g.us" == "B" + ['@'] + "g.us";
    FirstFieldOfJoin("A", '@', "g.us");
    FirstFieldOfJoin("B", '@', "g.us");
    assert ["A@g.us", "B@g.us"][..1] == ["A@g.us"];
    assert ["A@g.us"][..0] == [];
    assert WelcomeText("A@g.us") == "👋 Welcome @" + "A" + "!" == "👋 Welcome @A!";
    assert WelcomeText("B@g.us") == "👋 Welcome @" + "B" + "!" == "👋 Welcome @B!";
  }
}
