/** The `/stats` reply: refused outside the stats channel, otherwise the
    stored record's scalars and a leaderboard of the per-submitter counters,
    one line `- u → cx` per submitter, highest count first. */
module Summary {
  import opened Wrappers
  import opened Text
  import opened Tally
  import opened Ranking
  import opened StatsStore

  /** The record `/stats` shows when the file cannot be read. */
  const SummaryDefault := Stats(0, 0, "-", "-", [])

  /** The description when there is no counter to list. */
  const NoData := "Noch keine Daten"

  const Refusal := "❌ Nicht erlaubt hier"

  /** The arrow between a submitter and their count. */
  const Arrow := " → "

  /** The reply to `/stats`: an ephemeral refusal, or the embed's text. */
  datatype Reply =
    | Refused(message: string)
    | Shown(today: string, total: string, lastName: string, lastBy: string, description: string)

  /** `- ${u} → ${c}x` */
  function Line(e: Entry): string
  {
    "- " + e.user + Arrow + DecimalString(e.count) + "x"
  }

  function Lines(es: seq<Entry>): (r: seq<string>)
    ensures |r| == |es|
  {
    if |es| == 0 then [] else [Line(es[0])] + Lines(es[1..])
  }

  /** `sorted || "Noch keine Daten"`, where `sorted` is the ranked lines
      joined with newlines. */
  function Description(users: seq<Entry>): (d: string)
    ensures d != ""
    ensures d == NoData <==> users == []
  {
    var ranked := Ranked(users);
    assert |multiset(ranked)| == |multiset(users)|;
    var lines := Lines(ranked);
    var sorted := Join(lines, "\n");
    assert |lines| >= 1 ==> sorted[0] == lines[0][0] == '-';
    if sorted == "" then NoData else sorted
  }

  /** The `/stats` handler, given the channel it was used in, the
      configured stats channel (`None` when the variable is unset, which
      matches no channel) and the parsed stats file. */
  function StatsReply(channelId: string, statsChannel: Option<string>, stored: Option<Stats>): (r: Reply)
    ensures r.Refused? <==> statsChannel != Some(channelId)
    ensures r.Refused? ==> r.message == Refusal
    ensures r.Shown? ==>
      var s := Loaded(stored, SummaryDefault);
      && AllDigits(r.today) && DecimalValue(r.today) == s.today
      && |r.today| >= 1 && (r.today[0] == '0' <==> s.today == 0)
      && (r.today[0] == '0' ==> |r.today| == 1)
      && AllDigits(r.total) && DecimalValue(r.total) == s.total
      && |r.total| >= 1 && (r.total[0] == '0' <==> s.total == 0)
      && (r.total[0] == '0' ==> |r.total| == 1)
      && r.lastName == s.lastName
      && r.lastBy == s.lastBy
      && r.description == Description(s.users)
  {
    if statsChannel != Some(channelId) then Refused(Refusal)
    else
      var s := Loaded(stored, SummaryDefault);
      DecimalRoundTrip(s.today);
      DecimalRoundTrip(s.total);
      Shown(DecimalString(s.today), DecimalString(s.total), s.lastName, s.lastBy, Description(s.users))
  }

  /** Reads one line `- u → cx` back into its entry. The count is the run of
      digits before the final `x`, so `u` may itself contain arrows and
      digits. */
  function ParseLine(l: string): Option<Entry>
  {
    if |l| < 3 || l[..2] != "- " || l[|l| - 1] != 'x' then None
    else ParseBody(l[2..|l| - 1])
  }

  /** Reads `u → c` back: the count is the trailing run of digits, and the
      arrow must stand right before it. */
  function ParseBody(body: string): Option<Entry>
  {
    var k := TrailingDigits(body);
    var head := body[..|body| - k];
    if k == 0 || |head| < |Arrow| || head[|head| - |Arrow|..] != Arrow then None
    else Some(Entry(head[..|head| - |Arrow|], DecimalValue(body[|body| - k..])))
  }

  /** The length of the run of digits that ends `s`. */
  function TrailingDigits(s: string): (k: nat)
    ensures k <= |s|
    ensures forall i :: |s| - k <= i < |s| ==> IsDigit(s[i])
    ensures k < |s| ==> !IsDigit(s[|s| - k - 1])
  {
    if |s| == 0 || !IsDigit(s[|s| - 1]) then 0 else 1 + TrailingDigits(s[..|s| - 1])
  }

  function ParseLines(ls: seq<string>): Option<seq<Entry>>
  {
    if |ls| == 0 then Some([])
    else
      match (ParseLine(ls[0]), ParseLines(ls[1..]))
      case (Some(e), Some(es)) => Some([e] + es)
      case _ => None
  }

  /** Reads a description back into the ranked entries it lists. */
  function ParseDescription(d: string): Option<seq<Entry>>
  {
    if d == NoData then Some([]) else ParseLines(Split(d, '\n'))
  }

  /** The digits after a non-digit are the trailing run. */
  lemma TrailingDigitsAfter(head: string, digits: string)
    requires |head| > 0 && !IsDigit(head[|head| - 1]) && AllDigits(digits)
    ensures TrailingDigits(head + digits) == |digits|
  {
    var s := head + digits;
    var k := TrailingDigits(s);
    assert s[|s| - |digits| - 1] == head[|head| - 1];
    assert forall i :: |s| - |digits| <= i < |s| ==> s[i] == digits[i - |head|];
  }

  lemma Halves(a: string, b: string)
    ensures (a + b)[..|a|] == a && (a + b)[|a|..] == b
  {
  }

  lemma Framed(body: string)
    ensures var l := "- " + body + "x";
      |l| >= 3 && l[..2] == "- " && l[|l| - 1] == 'x' && l[2..|l| - 1] == body
  {
    var l := "- " + body + "x";
    assert l[2..|l| - 1] == body;
  }

  lemma ParseBodyRoundTrip(e: Entry)
    ensures ParseBody(e.user + Arrow + DecimalString(e.count)) == Some(e)
  {
    var digits := DecimalString(e.count);
    var head := e.user + Arrow;
    var body := head + digits;
    TrailingDigitsAfter(head, digits);
    assert |body| - |digits| == |head|;
    Halves(head, digits);
    Halves(e.user, Arrow);
    assert |head| - |Arrow| == |e.user|;
    DecimalRoundTrip(e.count);
  }

  lemma ParseLineRoundTrip(e: Entry)
    ensures ParseLine(Line(e)) == Some(e)
  {
    var body := e.user + Arrow + DecimalString(e.count);
    assert Line(e) == "- " + body + "x";
    Framed(body);
    ParseBodyRoundTrip(e);
  }

  lemma {:induction false} ParseLinesRoundTrip(es: seq<Entry>)
    ensures ParseLines(Lines(es)) == Some(es)
  {
    if |es| > 0 {
      ParseLineRoundTrip(es[0]);
      assert Lines(es)[1..] == Lines(es[1..]);
      ParseLinesRoundTrip(es[1..]);
      assert es == [es[0]] + es[1..];
    }
  }

  lemma LineHasNoNewline(e: Entry)
    requires '\n' !in e.user
    ensures '\n' !in Line(e)
  {
  }

  /** The description lists exactly the ranked counters and can be read
      back, provided no submitter's name contains a newline. */
  lemma DescriptionRoundTrip(users: seq<Entry>)
    requires forall k :: 0 <= k < |users| ==> '\n' !in users[k].user
    ensures ParseDescription(Description(users)) == Some(Ranked(users))
  {
    var ranked := Ranked(users);
    if users != [] {
      var ls := Lines(ranked);
      forall k | 0 <= k < |ls| ensures '\n' !in ls[k] {
        assert ranked[k] in multiset(users);
        LinesAt(ranked, k);
        LineHasNoNewline(ranked[k]);
      }
      SplitJoin(ls, '\n');
      ParseLinesRoundTrip(ranked);
    }
  }

  lemma {:induction false} LinesAt(es: seq<Entry>, k: nat)
    requires k < |es|
    ensures Lines(es)[k] == Line(es[k])
  {
    if k > 0 {
      LinesAt(es[1..], k - 1);
    }
  }
}
