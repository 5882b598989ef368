/**
 * The `USERS` fixture of the web-vitals demo: 120 generated users whose job cycles through six
 * names and whose bio is a long repeated text meant to make the payload heavy.
 */
module Users {
  import JsString

  datatype User = User(id: int, name: string, job: string, bio: string)

  const Jobs: seq<string> := ["Engineer", "Designer", "Manager", "Marketing", "Sales", "Support"]

  const UserCount := 120

  /** The user at index i of `Array.from({ length: 120 }, (_, i) => …)`. */
  function MakeUser(i: nat): (u: User)
    ensures u.job in Jobs
    ensures |u.bio| == 4 * (200 + (i % 10) * 50)
  {
    User(i + 1, "User " + JsString.NatToString(i + 1), Jobs[i % |Jobs|], JsString.Repeat("Bio ", 200 + (i % 10) * 50))
  }

  /** The six job names differ. */
  lemma JobsDistinct()
    ensures forall i, j :: 0 <= i < j < |Jobs| ==> Jobs[i] != Jobs[j]
  {
  }

  /** The generated users. */
  function AllUsers(): (us: seq<User>)
    ensures |us| == UserCount
    ensures forall i :: 0 <= i < |us| ==> us[i].id == i + 1 && us[i].job == Jobs[i % 6]
    ensures forall i :: 0 <= i < |us| ==> us[i].name == "User " + JsString.NatToString(i + 1)
    ensures forall i :: 0 <= i < |us| ==> |us[i].bio| == 4 * (200 + (i % 10) * 50)
  {
    seq(UserCount, i requires 0 <= i => MakeUser(i))
  }

  /** A bio is "Bio " over and over: every character is the one at its offset within a copy. */
  lemma BioRepeats(i: int, k: int)
    requires 0 <= i < UserCount && 0 <= k < |AllUsers()[i].bio|
    ensures AllUsers()[i].bio[k] == "Bio "[k % 4]
  {
    UserAt(i);
    RepeatedBio(AllUsers()[i].bio, 200 + (i % 10) * 50, k);
  }

  lemma UserAt(i: int)
    requires 0 <= i < UserCount
    ensures AllUsers()[i] == MakeUser(i)
  {
  }

  lemma RepeatedBio(bio: string, n: nat, k: int)
    requires bio == JsString.Repeat("Bio ", n) && 0 <= k < |bio|
    ensures bio[k] == "Bio "[k % 4]
  {
    JsString.RepeatAt("Bio ", n, k / 4, k % 4);
    assert k / 4 * 4 + k % 4 == k;
  }

  /** Ids grow with the index, so no two users share one. */
  lemma IdsIncreasing(i: int, j: int)
    requires 0 <= i < j < UserCount
    ensures AllUsers()[i].id < AllUsers()[j].id
  {
  }

  /** Names are distinct too: their numbers are the ids. */
  lemma NamesDistinct(i: int, j: int)
    requires 0 <= i < UserCount && 0 <= j < UserCount
    requires AllUsers()[i].name == AllUsers()[j].name
    ensures i == j
  {
    assert forall n: nat :: "User" + " " + JsString.NatToString(n) == "User " + JsString.NatToString(n);
    JsString.NumberedLabelsDistinct("User", i + 1, "User", j + 1);
  }

  /** The jobs of the users, in order. */
  function JobsOf(us: seq<User>): (js: seq<string>)
    ensures |js| == |us| && forall i :: 0 <= i < |us| ==> js[i] == us[i].job
  {
    seq(|us|, i requires 0 <= i < |us| => us[i].job)
  }

  /** The job column of the first n users. */
  function JobCycle(n: nat): (js: seq<string>)
    ensures |js| == n && forall i :: 0 <= i < n ==> js[i] == Jobs[i % 6]
  {
    seq(n, i requires 0 <= i < n => Jobs[i % 6])
  }

  lemma JobsOfUsers()
    ensures JobsOf(AllUsers()) == JobCycle(UserCount)
  {
  }

  /** Six more users bring one more of each job. */
  lemma JobCycleBlock(m: nat)
    ensures JobCycle(6 * m + 6) == JobCycle(6 * m) + Jobs
  {
    var a := JobCycle(6 * m + 6);
    var b := JobCycle(6 * m) + Jobs;
    forall i | 6 * m <= i < 6 * m + 6
      ensures a[i] == b[i]
    {
      assert i % 6 == i - 6 * m;
    }
  }

  /** Every job occurs once among the six names. */
  lemma JobsOnce(j: int)
    requires 0 <= j < 6
    ensures multiset(Jobs)[Jobs[j]] == 1
  {
  }

  /** In a whole number of cycles of six every job occurs once per cycle. */
  lemma {:induction false} JobCycleCount(m: nat, j: int)
    requires 0 <= j < 6
    ensures multiset(JobCycle(6 * m))[Jobs[j]] == m
  {
    if m > 0 {
      JobCycleCount(m - 1, j);
      JobCycleBlock(m - 1);
      JobsOnce(j);
    }
  }

  /** Each of the six jobs is held by exactly 20 users. */
  lemma TwentyPerJob(j: int)
    requires 0 <= j < 6
    ensures multiset(JobsOf(AllUsers()))[Jobs[j]] == 20
  {
    JobsOfUsers();
    JobCycleCount(20, j);
  }

  /** No other job occurs. */
  lemma OnlyListedJobs(job: string)
    requires job !in Jobs
    ensures multiset(JobsOf(AllUsers()))[job] == 0
  {
    JobsOfUsers();
  }
}
