/** The two list transforms around the companion select menu: the options
    offered (the guild's cached members without bots, at most 25, the
    platform's limit) and the "who was there" text built from the chosen
    user ids. */
module Selection {
  import opened Wrappers
  import opened Text

  /** A cached guild member: user id, user name, and whether it is a bot. */
  datatype Member = Member(id: string, username: string, bot: bool)

  /** One select-menu option `{label, value}`; `label` is a keyword here, so
      the field is `caption`. */
  datatype MenuOption = MenuOption(caption: string, value: string)

  /** The most options a select menu may carry. */
  const OptionLimit := 25

  /** `filter(m => !m.user.bot)`, in cache order. */
  function NonBots(ms: seq<Member>): (r: seq<Member>)
    ensures |r| <= |ms|
    ensures forall i :: 0 <= i < |r| ==> !r[i].bot
  {
    if |ms| == 0 then []
    else (if ms[0].bot then [] else [ms[0]]) + NonBots(ms[1..])
  }

  /** The filter keeps every member that is not a bot, as often as it
      occurs, and drops every bot. */
  lemma {:induction false} NonBotsMembers(ms: seq<Member>)
    ensures forall m :: multiset(NonBots(ms))[m] == if m.bot then 0 else multiset(ms)[m]
  {
    if |ms| > 0 {
      NonBotsMembers(ms[1..]);
      assert ms == [ms[0]] + ms[1..];
    }
  }

  /** The filter keeps order: it distributes over concatenation. */
  lemma {:induction false} NonBotsAppend(a: seq<Member>, b: seq<Member>)
    ensures NonBots(a + b) == NonBots(a) + NonBots(b)
  {
    if |a| > 0 {
      assert (a + b)[0] == a[0];
      assert (a + b)[1..] == a[1..] + b;
      NonBotsAppend(a[1..], b);
      var h := if a[0].bot then [] else [a[0]];
      calc {
        NonBots(a + b);
        h + NonBots(a[1..] + b);
        h + (NonBots(a[1..]) + NonBots(b));
        (h + NonBots(a[1..])) + NonBots(b);
      }
    } else {
      assert a + b == b;
    }
  }

  function OptionOf(m: Member): MenuOption
  {
    MenuOption(m.username, m.id)
  }

  /** `members.filter(m => !m.user.bot).map(...).slice(0, 25)`. */
  function MemberOptions(ms: seq<Member>): (r: seq<MenuOption>)
    ensures |r| <= OptionLimit
    ensures |r| == if |NonBots(ms)| < OptionLimit then |NonBots(ms)| else OptionLimit
    ensures forall i :: 0 <= i < |r| ==> r[i] == OptionOf(NonBots(ms)[i])
  {
    var humans := NonBots(ms);
    var all := seq(|humans|, i requires 0 <= i < |humans| => OptionOf(humans[i]));
    if |all| <= OptionLimit then all else all[..OptionLimit]
  }

  /** Every option is the label and value of a member that is not a bot. */
  lemma MemberOptionsAreHumans(ms: seq<Member>)
    ensures forall o :: o in MemberOptions(ms) ==>
      exists m :: m in ms && !m.bot && o == OptionOf(m)
  {
    var r := MemberOptions(ms);
    forall o | o in r ensures exists m :: m in ms && !m.bot && o == OptionOf(m) {
      var i :| 0 <= i < |r| && r[i] == o;
      var m := NonBots(ms)[i];
      NonBotsMembers(ms);
      assert m in multiset(NonBots(ms));
    }
  }

  /** With at most 25 members that are not bots, every one of them is
      offered. */
  lemma MemberOptionsComplete(ms: seq<Member>, m: Member)
    requires |NonBots(ms)| <= OptionLimit
    requires m in ms && !m.bot
    ensures OptionOf(m) in MemberOptions(ms)
  {
    assert m in multiset(ms);
    NonBotsMembers(ms);
    assert m in multiset(NonBots(ms));
    var i :| 0 <= i < |NonBots(ms)| && NonBots(ms)[i] == m;
    assert MemberOptions(ms)[i] == OptionOf(m);
  }

  /** The text shown when nobody was selected. */
  const NoCompanions := "Keine Angabe"

  /** A user mention `<@id>`. */
  function Mention(id: string): string
  {
    "<@" + id + ">"
  }

  function Mentions(ids: seq<string>): (r: seq<string>)
    ensures |r| == |ids|
  {
    if |ids| == 0 then [] else [Mention(ids[0])] + Mentions(ids[1..])
  }

  /** `values.map(id => `<@${id}>`).join(", ") || "Keine Angabe"`. */
  function CompanionText(ids: seq<string>): (t: string)
    ensures t == NoCompanions <==> ids == []
  {
    var mentions := Mentions(ids);
    var joined := Join(mentions, ", ");
    assert |mentions| >= 1 ==> joined[0] == mentions[0][0] == '<';
    if joined == "" then NoCompanions else joined
  }

  /** Reads the ids back out of a companion text: the placeholder gives no
      ids, otherwise the text must be mentions separated by ", ". */
  function CompanionIds(t: string): Option<seq<string>>
  {
    if t == NoCompanions then Some([]) else MentionIds(t)
  }

  function MentionIds(t: string): Option<seq<string>>
    decreases |t|
  {
    if |t| < 2 || t[..2] != "<@" then None
    else
      var rest := t[2..];
      var i := IndexOf(rest, '>');
      if i == |rest| then None
      else
        var after := rest[i + 1..];
        if after == "" then Some([rest[..i]])
        else if |after| < 2 || after[..2] != ", " then None
        else
          match MentionIds(after[2..])
          case None => None
          case Some(more) => Some([rest[..i]] + more)
  }

  /** The companion text names the selected ids, in selection order, and
      nothing else: it can be read back, provided no id contains '>' (user
      ids are numeric). */
  lemma CompanionRoundTrip(ids: seq<string>)
    requires forall k :: 0 <= k < |ids| ==> '>' !in ids[k]
    ensures CompanionIds(CompanionText(ids)) == Some(ids)
  {
    if ids != [] {
      MentionsRoundTrip(ids);
    }
  }

  lemma MentionIdsStep(id: string, tail: string)
    requires '>' !in id
    ensures tail == "" ==> MentionIds(Mention(id) + tail) == Some([id])
    ensures |tail| >= 2 && tail[..2] == ", " && MentionIds(tail[2..]).Some? ==>
      MentionIds(Mention(id) + tail) == Some([id] + MentionIds(tail[2..]).value)
  {
    var t := Mention(id) + tail;
    assert t[..2] == "<@";
    var rest := t[2..];
    assert rest == id + ['>'] + tail;
    IndexOfAfter(id, '>', tail);
    assert rest[..|id|] == id;
    assert rest[|id| + 1..] == tail;
  }

  lemma {:induction false} MentionsRoundTrip(ids: seq<string>)
    requires |ids| >= 1
    requires forall k :: 0 <= k < |ids| ==> '>' !in ids[k]
    ensures MentionIds(Join(Mentions(ids), ", ")) == Some(ids)
  {
    var id := ids[0];
    if |ids| == 1 {
      assert Join(Mentions(ids), ", ") == Mention(id) + "";
      MentionIdsStep(id, "");
      assert ids == [id];
    } else {
      var more := Join(Mentions(ids[1..]), ", ");
      var tail := ", " + more;
      assert Mentions(ids)[1..] == Mentions(ids[1..]);
      assert Join(Mentions(ids), ", ") == Mention(id) + tail;
      MentionsRoundTrip(ids[1..]);
      assert tail[2..] == more;
      MentionIdsStep(id, tail);
      assert ids == [id] + ids[1..];
    }
  }
}
