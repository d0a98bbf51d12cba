/** The inspection counter store: the record kept in stats.json and the
    read-modify-write that the `select_dabei` handler performs on it once
    per completed inspection. Reading and writing the file, and the JSON
    encoding, are abstracted: the file's parsed contents are an
    `Option<Stats>`, `None` when the file is missing or does not parse. */
module StatsStore {
  import opened Wrappers
  import opened Tally
  import Selection

  /** One stats record: `{today, total, lastName, lastBy, users}`. */
  datatype Stats = Stats(today: nat, total: nat, lastName: string, lastBy: string, users: seq<Entry>)

  /** The record a commit starts from when the file cannot be read. */
  const CommitDefault := Stats(0, 0, "Noch niemand", "Unbekannt", [])

  /** The parsed file contents, or `default` when there are none. */
  function Loaded(stored: Option<Stats>, default: Stats): Stats
  {
    match stored
    case Some(s) => s
    case None => default
  }

  /** The invariants the counters are meant to keep: one counter per
      submitter, `total` is the sum of the counters, `today <= total`. */
  predicate Consistent(s: Stats)
  {
    DistinctKeys(s.users) && s.total == Sum(s.users) && s.today <= s.total
  }

  /** The record after one inspection of `name` submitted by `user`. The
      counters grow by exactly one in total, and a consistent record stays
      consistent. */
  function Recorded(s: Stats, name: string, user: string): (r: Stats)
    ensures Sum(r.users) == Sum(s.users) + 1
    ensures Consistent(s) ==> Consistent(r)
  {
    var r := Stats(s.today + 1, s.total + 1, name, user, Bump(s.users, user));
    BumpSum(s.users, user);
    if Consistent(s) then BumpDistinct(s.users, user); r else r
  }

  /** One completed inspection: the subject's name and the submitter's tag. */
  datatype Submission = Submission(name: string, user: string)

  /** The record after the submissions, committed one after the other. */
  function RecordedAll(s: Stats, subs: seq<Submission>): Stats
    decreases |subs|
  {
    if |subs| == 0 then s
    else RecordedAll(Recorded(s, subs[0].name, subs[0].user), subs[1..])
  }

  /** How many of the submissions `user` made. */
  function SubmittedBy(subs: seq<Submission>, user: string): nat
  {
    if |subs| == 0 then 0
    else (if subs[0].user == user then 1 else 0) + SubmittedBy(subs[1..], user)
  }

  /** N commits raise `today`, `total` and the sum of the counters by
      exactly N each, and keep the invariants. */
  lemma {:induction false} RecordedAllTotals(s: Stats, subs: seq<Submission>)
    ensures RecordedAll(s, subs).today == s.today + |subs|
    ensures RecordedAll(s, subs).total == s.total + |subs|
    ensures Sum(RecordedAll(s, subs).users) == Sum(s.users) + |subs|
    ensures Consistent(s) ==> Consistent(RecordedAll(s, subs))
    decreases |subs|
  {
    if |subs| > 0 {
      var next := Recorded(s, subs[0].name, subs[0].user);
      RecordedAllTotals(next, subs[1..]);
    }
  }

  /** After N commits each submitter's counter has grown by the number of
      those commits they made; no commit is lost. */
  lemma {:induction false} RecordedAllPerUser(s: Stats, subs: seq<Submission>, user: string)
    ensures Count(RecordedAll(s, subs).users, user) == Count(s.users, user) + SubmittedBy(subs, user)
    decreases |subs|
  {
    if |subs| > 0 {
      RecordedAllPerUser(Recorded(s, subs[0].name, subs[0].user), subs[1..], user);
    }
  }

  /** The last commit decides `lastName` and `lastBy`. */
  lemma {:induction false} RecordedAllLast(s: Stats, subs: seq<Submission>)
    requires |subs| > 0
    ensures RecordedAll(s, subs).lastName == subs[|subs| - 1].name
    ensures RecordedAll(s, subs).lastBy == subs[|subs| - 1].user
    decreases |subs|
  {
    if |subs| > 1 {
      RecordedAllLast(Recorded(s, subs[0].name, subs[0].user), subs[1..]);
    }
  }

  /** stats.json, seen through `JSON.parse(fs.readFileSync(...))` and
      written back whole by `fs.writeFileSync(..., JSON.stringify(...))`. */
  class StatsFile {
    /** The parsed file; `None` when it is missing or not valid JSON. */
    var contents: Option<Stats>

    constructor (initial: Option<Stats>)
      ensures contents == initial
    {
      contents := initial;
    }

    /** Loads the record (the default when unreadable), counts one
        inspection of `name` by `user`, and overwrites the file. */
    method Commit(name: string, user: string)
      modifies this
      ensures contents == Some(Recorded(Loaded(old(contents), CommitDefault), name, user))
      ensures var was := Loaded(old(contents), CommitDefault);
        && contents.value.today == was.today + 1
        && contents.value.total == was.total + 1
        && contents.value.lastName == name
        && contents.value.lastBy == user
        && Count(contents.value.users, user) == Count(was.users, user) + 1
        && (forall u :: u != user ==> Count(contents.value.users, u) == Count(was.users, u))
        && Keys(contents.value.users) == Keys(was.users) + {user}
      ensures Consistent(Loaded(old(contents), CommitDefault)) ==> Consistent(contents.value)
      ensures old(contents).None? ==> contents == Some(Stats(1, 1, name, user, [Entry(user, 1)]))
    {
      var stats := CommitDefault;
      if contents.Some? {
        stats := contents.value;
      }
      stats := stats.(today := stats.today + 1);
      stats := stats.(total := stats.total + 1);
      stats := stats.(lastName := name);
      stats := stats.(lastBy := user);
      stats := stats.(users := Bump(stats.users, user));
      contents := Some(stats);
      assert contents.value == Recorded(Loaded(old(contents), CommitDefault), name, user);
    }

    /** The one-shot listener for the companion menu. Any interaction other
        than the `select_dabei` string select is ignored and leaves the file
        alone; otherwise the companion text is built, the inspection of the
        modal's `name` is committed under the selecting user's tag, and the
        text is returned for the confirmation. */
    method OnSelect(isStringSelect: bool, customId: string, values: seq<string>, userTag: string, name: string)
      returns (selected: Option<string>)
      modifies this
      ensures !(isStringSelect && customId == "select_dabei") ==> selected == None && unchanged(this)
      ensures isStringSelect && customId == "select_dabei" ==>
        && selected == Some(Selection.CompanionText(values))
        && contents == Some(Recorded(Loaded(old(contents), CommitDefault), name, userTag))
    {
      if !isStringSelect || customId != "select_dabei" {
        return None;
      }
      var text := Selection.CompanionText(values);
      Commit(name, userTag);
      selected := Some(text);
    }
  }
}
