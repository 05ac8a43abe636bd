/**
 * Recovery from a superseded authentication certificate. The server honours only the newest
 * certificate it issued to the device, so a certificate that was issued must also be loaded.
 * Any number of callers ask for the recovery; a lock lets one of them run at a time. The
 * registration's health and the answers of the server are the environment's choice.
 */
module CertificateHeal {
  import opened Options

  /** Where the lock holder is in the recovery. */
  datatype Phase =
    | First                      // is it healthy already?
    | Refresh                    // a plain re-register
    | Second                     // did that help?
    | Mint                       // ask for a new certificate
    | Load(cert: nat)            // put it into the running registration
    | Register                   // re-register with it
    | Third                      // did that help?
    | Sleep                      // wait the re-register guard out
    | RefreshAgain
    | Fourth
    | Done(ok: bool)

  datatype Answer =
    | Health(good: bool)
    | Refreshed(ok: bool)
    | Issued(cert: Option<nat>)
    | Loaded
    | Slept

  predicate Fits(p: Phase, a: Answer) {
    match p
    case First | Second | Third | Fourth => a.Health?
    case Refresh | Register | RefreshAgain => a.Refreshed?
    case Mint => a.Issued?
    case Load(_) => a.Loaded?
    case Sleep => a.Slept?
    case Done(_) => false
  }

  function Next(p: Phase, a: Answer): Phase
    requires Fits(p, a)
  {
    match p
    case First => if a.good then Done(true) else Refresh
    case Refresh => if a.ok then Second else Mint
    case Second => if a.good then Done(true) else Mint
    case Mint => if a.cert.Some? then Load(a.cert.value) else Done(false)
    case Load(_) => Register
    case Register => if a.ok then Third else Done(false)
    case Third => if a.good then Done(true) else Sleep
    case Sleep => RefreshAgain
    case RefreshAgain => if a.ok then Fourth else Done(false)
    case Fourth => Done(a.good)
    case Done(_) => p
  }

  /** Where a recovery stands after some answers. */
  ghost function Follow(answers: seq<Answer>): Option<Phase> {
    if answers == [] then Some(First)
    else
      var p := Follow(answers[..|answers| - 1]);
      var a := answers[|answers| - 1];
      if p.Some? && Fits(p.value, a) then Some(Next(p.value, a)) else None
  }

  lemma FollowsNext(answers: seq<Answer>, a: Answer)
    requires Follow(answers).Some? && Fits(Follow(answers).value, a)
    ensures Follow(answers + [a]) == Some(Next(Follow(answers).value, a))
  {
  }

  // --- the whole recoveries, written out ---

  /** The answers after which a new certificate is asked for: the registration was not healthy, and a
      plain re-register was refused or did not help. */
  ghost predicate PlainFailed(answers: seq<Answer>) {
    || answers == [Health(false), Refreshed(false)]
    || answers == [Health(false), Refreshed(true), Health(false)]
  }

  /** The answers from asking for a certificate to the end. */
  ghost predicate CertificateTried(answers: seq<Answer>, ok: bool) {
    || (answers == [Issued(None)] && !ok)
    || (|answers| >= 3 && answers[0].Issued? && answers[0].cert.Some? && answers[1] == Loaded
        && Registered(answers[2..], ok))
  }

  /** The answers from re-registering with the certificate to the end. */
  ghost predicate Registered(answers: seq<Answer>, ok: bool) {
    || (answers == [Refreshed(false)] && !ok)
    || (answers == [Refreshed(true), Health(true)] && ok)
    || (answers == [Refreshed(true), Health(false), Slept, Refreshed(false)] && !ok)
    || answers == [Refreshed(true), Health(false), Slept, Refreshed(true), Health(ok)]
  }

  /** A whole recovery: healthy at once, healthy after a plain re-register, or decided by a new
      certificate, which is asked for in every other case. */
  ghost predicate Recovery(answers: seq<Answer>, ok: bool) {
    || (answers == [Health(true)] && ok)
    || (answers == [Health(false), Refreshed(true), Health(true)] && ok)
    || exists k: nat :: k <= |answers| && PlainFailed(answers[..k]) && CertificateTried(answers[k..], ok)
  }

  /** The same from a phase on, first answer first. */
  ghost function From(p: Phase, answers: seq<Answer>): Option<Phase>
    decreases |answers|
  {
    if answers == [] then Some(p)
    else if Fits(p, answers[0]) then From(Next(p, answers[0]), answers[1..])
    else None
  }

  lemma {:induction false} FromThen(p: Phase, answers: seq<Answer>, a: Answer)
    ensures From(p, answers + [a])
            == match From(p, answers)
               case Some(q) => if Fits(q, a) then Some(Next(q, a)) else None
               case None => None
    decreases |answers|
  {
    if answers == [] {
      assert answers + [a] == [a] && [a][1..] == [];
    } else {
      assert (answers + [a])[1..] == answers[1..] + [a];
      if Fits(p, answers[0]) {
        FromThen(Next(p, answers[0]), answers[1..], a);
      }
    }
  }

  lemma {:induction false} FollowIsFrom(answers: seq<Answer>)
    ensures Follow(answers) == From(First, answers)
    decreases |answers|
  {
    if answers != [] {
      var front, a := answers[..|answers| - 1], answers[|answers| - 1];
      FollowIsFrom(front);
      FromThen(First, front, a);
      assert front + [a] == answers;
    }
  }

  /** A phase that is not the end takes one answer more. */
  lemma One(p: Phase, answers: seq<Answer>, ok: bool)
    requires !p.Done?
    ensures From(p, answers) == Some(Done(ok)) <==>
            answers != [] && Fits(p, answers[0]) && From(Next(p, answers[0]), answers[1..]) == Some(Done(ok))
  {
  }

  lemma Ended(p: Phase, answers: seq<Answer>, ok: bool)
    requires p.Done?
    ensures From(p, answers) == Some(Done(ok)) <==> answers == [] && p.ok == ok
  {
  }

  lemma RegisteredIff(answers: seq<Answer>, ok: bool)
    ensures From(Register, answers) == Some(Done(ok)) <==> Registered(answers, ok)
  {
    hide From;
    One(Register, answers, ok);
    if answers != [] && answers[0].Refreshed? {
      var rest := answers[1..];
      assert answers == [answers[0]] + rest;
      Ended(Done(false), rest, ok);
      if answers[0].ok {
        ThirdIff(rest, ok);
      }
    }
  }

  lemma ThirdIff(answers: seq<Answer>, ok: bool)
    ensures From(Third, answers) == Some(Done(ok)) <==>
            || (answers == [Health(true)] && ok)
            || (answers == [Health(false), Slept, Refreshed(false)] && !ok)
            || answers == [Health(false), Slept, Refreshed(true), Health(ok)]
  {
    hide From;
    One(Third, answers, ok);
    if answers != [] && answers[0].Health? {
      var rest := answers[1..];
      assert answers == [answers[0]] + rest;
      Ended(Done(true), rest, ok);
      if !answers[0].good {
        SleepIff(rest, ok);
      }
    }
  }

  lemma SleepIff(answers: seq<Answer>, ok: bool)
    ensures From(Sleep, answers) == Some(Done(ok)) <==>
            (answers == [Slept, Refreshed(false)] && !ok) || answers == [Slept, Refreshed(true), Health(ok)]
  {
    hide From;
    One(Sleep, answers, ok);
    if answers != [] && answers[0].Slept? {
      var rest := answers[1..];
      assert answers == [answers[0]] + rest;
      One(RefreshAgain, rest, ok);
      if rest != [] && rest[0].Refreshed? {
        var last := rest[1..];
        assert rest == [rest[0]] + last;
        Ended(Done(false), last, ok);
        FourthIff(last, ok);
      }
    }
  }

  lemma FourthIff(answers: seq<Answer>, ok: bool)
    ensures From(Fourth, answers) == Some(Done(ok)) <==> answers == [Health(ok)]
  {
    hide From;
    One(Fourth, answers, ok);
    if answers != [] && answers[0].Health? {
      assert answers == [answers[0]] + answers[1..];
      Ended(Done(answers[0].good), answers[1..], ok);
    }
  }

  lemma MintIff(answers: seq<Answer>, ok: bool)
    ensures From(Mint, answers) == Some(Done(ok)) <==> CertificateTried(answers, ok)
  {
    hide From, Registered;
    One(Mint, answers, ok);
    if answers != [] && answers[0].Issued? {
      var rest := answers[1..];
      assert answers == [answers[0]] + rest;
      Ended(Done(false), rest, ok);
      if answers[0].cert.Some? {
        One(Load(answers[0].cert.value), rest, ok);
        if rest != [] && rest[0].Loaded? {
          assert answers[2..] == rest[1..];
          RegisteredIff(answers[2..], ok);
          One(Register, answers[2..], ok);
        }
      }
    }
  }

  /** The recoveries that come to an end are these. */
  lemma RecoveryIff(answers: seq<Answer>, ok: bool)
    ensures Follow(answers) == Some(Done(ok)) <==> Recovery(answers, ok)
  {
    hide From, Follow, CertificateTried;
    FollowIsFrom(answers);
    if Follow(answers) == Some(Done(ok)) {
      EndedIsRecovery(answers, ok);
    }
    if k: nat :| k <= |answers| && PlainFailed(answers[..k]) && CertificateTried(answers[k..], ok) {
      MintIff(answers[k..], ok);
      RecoveryEndsSo(answers, ok, k);
    } else if Recovery(answers, ok) {
      ShortRecovery(answers, ok);
    }
  }

  lemma ShortRecovery(answers: seq<Answer>, ok: bool)
    requires ok && (answers == [Health(true)] || answers == [Health(false), Refreshed(true), Health(true)])
    ensures From(First, answers) == Some(Done(ok))
  {
    hide From;
    One(First, answers, ok);
    Ended(Done(true), answers[1..], ok);
    if |answers| > 1 {
      One(Refresh, answers[1..], ok);
      One(Second, answers[1..][1..], ok);
      Ended(Done(true), answers[1..][1..][1..], ok);
    }
  }

  lemma RecoveryEndsSo(answers: seq<Answer>, ok: bool, k: nat)
    requires k <= |answers| && PlainFailed(answers[..k]) && From(Mint, answers[k..]) == Some(Done(ok))
    ensures From(First, answers) == Some(Done(ok))
  {
    hide From;
    One(First, answers, ok);
    assert answers[0] == answers[..k][0] && answers[1] == answers[..k][1];
    One(Refresh, answers[1..], ok);
    assert answers[1..][1..] == answers[2..];
    if k == 3 {
      assert answers[2] == answers[..k][2];
      One(Second, answers[2..], ok);
      assert answers[2..][1..] == answers[3..];
    }
  }

  lemma EndedIsRecovery(answers: seq<Answer>, ok: bool)
    requires From(First, answers) == Some(Done(ok))
    ensures Recovery(answers, ok)
  {
    hide From, CertificateTried;
    One(First, answers, ok);
    Ended(Done(true), answers[1..], ok);
    if answers[0].good {
      assert answers == [Health(true)];
    } else {
      One(Refresh, answers[1..], ok);
      assert answers[1..][1..] == answers[2..];
      if !answers[1].ok {
        assert answers[..2] == [Health(false), Refreshed(false)];
        MintIff(answers[2..], ok);
      } else {
        One(Second, answers[2..], ok);
        assert answers[2..][1..] == answers[3..];
        Ended(Done(true), answers[3..], ok);
        if answers[2].good {
          assert answers == [Health(false), Refreshed(true), Health(true)];
        } else {
          assert answers[..3] == [Health(false), Refreshed(true), Health(false)];
          MintIff(answers[3..], ok);
        }
      }
    }
  }

  /** A recovery that fails has asked for a certificate; and if that came and was registered, the
      registration was looked at, and after the wait registered and looked at again. */
  ghost predicate TriedEverything(answers: seq<Answer>) {
    exists k: nat :: k <= |answers| && MintedInVain(answers[k..])
  }

  ghost predicate MintedInVain(rest: seq<Answer>) {
    && rest != [] && rest[0].Issued?
    && (rest[0].cert.Some? ==>
          && |rest| >= 3 && rest[1] == Loaded && rest[2].Refreshed?
          && (rest[2].ok ==>
                && |rest| >= 6 && rest[3] == Health(false) && rest[4] == Slept && rest[5].Refreshed?
                && (rest[5].ok ==> |rest| == 7 && rest[6] == Health(false))))
  }

  lemma FailureTriedEverything(answers: seq<Answer>)
    requires Follow(answers) == Some(Done(false))
    ensures TriedEverything(answers)
  {
    hide Follow, CertificateTried, MintedInVain;
    RecoveryIff(answers, false);
    var k: nat :| k <= |answers| && PlainFailed(answers[..k]) && CertificateTried(answers[k..], false);
    TriedInVain(answers[k..]);
  }

  lemma TriedInVain(rest: seq<Answer>)
    requires CertificateTried(rest, false)
    ensures MintedInVain(rest)
  {
    if rest[0].cert.Some? {
      var registered := rest[2..];
      assert forall j :: 0 <= j < |registered| ==> registered[j] == rest[2 + j];
    }
  }

  // --- the code, run by the lock holder ---

  /** The running registration and the account behind it, in an environment that may do anything
      to the health and refuse any request. */
  class Registration {
    var healthy: bool
    var newest: nat
    var loaded: nat
    ghost var phase: Phase
    ghost var answers: seq<Answer>

    /** The answers so far led to the phase. */
    ghost predicate Valid()
      reads this
    {
      Follow(answers) == Some(phase)
    }

    constructor ()
      ensures Valid() && newest == loaded && phase == First
    {
      healthy, newest, loaded, phase, answers := *, 0, 0, First, [];
    }

    ghost method Record(a: Answer)
      requires Valid() && Fits(phase, a)
      modifies this`phase, this`answers
      ensures Valid() && phase == Next(old(phase), a) && answers == old(answers) + [a]
    {
      FollowsNext(answers, a);
      answers, phase := answers + [a], Next(phase, a);
    }

    method IsHealthy() returns (yes: bool)
      requires Valid() && (phase.First? || phase.Second? || phase.Third? || phase.Fourth?)
      modifies this`phase, this`answers
      ensures Valid() && yes == healthy && phase == Next(old(phase), Health(yes)) && |answers| == |old(answers)| + 1
    {
      yes := healthy;
      Record(Health(yes));
    }

    method RefreshNow() returns (ok: bool)
      requires Valid() && (phase.Refresh? || phase.Register? || phase.RefreshAgain?)
      modifies this`healthy, this`phase, this`answers
      ensures Valid() && phase == Next(old(phase), Refreshed(ok))
    {
      ok, healthy := *, *;
      Record(Refreshed(ok));
    }

    /** Signs in and mints a certificate, or fails without minting one. */
    method RefreshIdentity() returns (cert: Option<nat>)
      requires Valid() && phase.Mint?
      modifies this`healthy, this`newest, this`phase, this`answers
      ensures Valid() && phase == Next(old(phase), Issued(cert))
      ensures cert.Some? ==> cert.value == newest == old(newest) + 1
      ensures cert.None? ==> newest == old(newest)
    {
      var refused := *;
      healthy := *;
      if refused {
        cert := None;
      } else {
        newest := newest + 1;
        cert := Some(newest);
      }
      Record(Issued(cert));
    }

    /** Loads the certificate, then re-registers with it, which may fail. */
    method UpdateUsers(cert: nat) returns (ok: bool)
      requires Valid() && phase == Load(cert)
      modifies this`healthy, this`loaded, this`phase, this`answers
      ensures Valid() && loaded == cert && phase == Next(Register, Refreshed(ok))
    {
      loaded := cert;
      Record(Loaded);
      ok := RefreshNow();
    }

    method Wait()
      requires Valid() && phase.Sleep?
      modifies this`healthy, this`phase, this`answers
      ensures Valid() && phase == RefreshAgain
    {
      healthy := *;
      Record(Slept);
    }

    /** The second step: a new certificate, loaded and registered, if need be twice. */
    method HealWithNewCertificate() returns (ok: bool)
      requires Valid() && phase.Mint?
      modifies this
      ensures Valid() && phase == Done(ok)
      ensures (newest == old(newest) && loaded == old(loaded)) || newest == loaded == old(newest) + 1
      ensures ok ==> healthy
    {
      hide Follow;
      var cert := RefreshIdentity();
      if cert.None? {
        return false;
      }
      ok := UpdateUsers(cert.value);
      if !ok {
        return false;
      }
      var good := IsHealthy();
      if !good {
        Wait();
        ok := RefreshNow();
        if !ok {
          return false;
        }
        good := IsHealthy();
        if !good {
          return false;
        }
      }
      return true;
    }

    method Heal() returns (ok: bool)
      requires Valid() && phase == First
      modifies this
      // The branches are those of the machine above, that is, of the recoveries written out.
      ensures Valid() && phase == Done(ok) && Recovery(answers, ok)
      ensures !ok ==> TriedEverything(answers)
      // On every exit a certificate that was minted is the loaded one, and at most one was.
      ensures (newest == old(newest) && loaded == old(loaded)) || newest == loaded == old(newest) + 1
      ensures old(healthy) ==> ok && newest == old(newest) && |answers| == |old(answers)| + 1
      ensures ok ==> healthy
    {
      hide Follow, Recovery, TriedEverything;
      var good := IsHealthy();
      if good {
        RecoveryIff(answers, true);
        return true;
      }
      ok := RefreshNow();
      if ok {
        good := IsHealthy();
        if good {
          RecoveryIff(answers, true);
          return true;
        }
      }
      ok := HealWithNewCertificate();
      RecoveryIff(answers, ok);
      if !ok {
        FailureTriedEverything(answers);
      }
    }
  }

  // --- any number of callers ---

  /** The lock holder and its phase, the callers that wait, and what each finished caller got. */
  datatype World = World(newest: nat, loaded: nat, healthy: bool, holder: Option<nat>, phase: Phase,
                         waiting: set<nat>, finished: map<nat, bool>)

  datatype Action =
    | Call(id: nat)
    | Acquire(id: nat)
    | Act(answer: Answer)
    | Abandon                 // the holder's future is dropped, which releases the lock
    | Recover
    | Sicken

  ghost predicate Can(w: World, a: Action) {
    match a
    case Call(id) => id !in w.waiting && w.holder != Some(id) && id !in w.finished
    case Acquire(id) => id in w.waiting && w.holder.None?
    case Act(answer) =>
      && w.holder.Some? && Fits(w.phase, answer)
      && (answer.Health? ==> answer.good == w.healthy)
      && (answer.Issued? && answer.cert.Some? ==> answer.cert.value == w.newest + 1)
    case Abandon => w.holder.Some?
    case _ => true
  }

  ghost function Do(w: World, a: Action): World
    requires Can(w, a)
  {
    match a
    case Call(id) => w.(waiting := w.waiting + {id})
    case Acquire(id) => w.(waiting := w.waiting - {id}, holder := Some(id), phase := First)
    case Act(answer) =>
      var p := Next(w.phase, answer);
      var acted := w.(newest := if answer.Issued? && answer.cert.Some? then answer.cert.value else w.newest,
                      loaded := if w.phase.Load? then w.phase.cert else w.loaded);
      if p.Done? then acted.(holder := None, phase := First, finished := w.finished[w.holder.value := p.ok])
      else acted.(phase := p)
    case Abandon => w.(holder := None, phase := First)
    case Recover => w.(healthy := true)
    case Sicken => w.(healthy := false)
  }

  ghost predicate Happens(w: World, actions: seq<Action>)
    decreases |actions|, 0
  {
    actions == [] || (Happens(w, Front(actions)) && Can(After(w, Front(actions)), Last(actions)))
  }

  ghost function After(w: World, actions: seq<Action>): World
    requires Happens(w, actions)
    decreases |actions|, 1
  {
    if actions == [] then w else Do(After(w, Front(actions)), Last(actions))
  }

  ghost function Front<T>(s: seq<T>): seq<T>
    requires s != []
  {
    s[..|s| - 1]
  }

  ghost function Last<T>(s: seq<T>): T
    requires s != []
  {
    s[|s| - 1]
  }

  /** The newest certificate is loaded, except in the moment between minting and loading it. */
  ghost predicate Consistent(w: World) {
    if w.holder.Some? && w.phase.Load? then w.phase.cert == w.newest && w.loaded < w.newest else w.loaded == w.newest
  }

  /** A minted certificate was given up before it was loaded, and none was loaded since. */
  ghost predicate Lost(w: World, actions: seq<Action>)
    requires Happens(w, actions)
    decreases |actions|
  {
    actions != [] &&
    var a, was := Last(actions), After(w, Front(actions));
    (a == Abandon && was.phase.Load?) || (a != Act(Loaded) && Lost(w, Front(actions)))
  }

  /** Whenever nobody holds the lock, the newest certificate is the loaded one, unless a recovery
      was given up between minting and loading; the next load repairs that. */
  lemma {:induction false} NewestLoadedUnlessLost(w: World, actions: seq<Action>)
    requires Consistent(w) && Happens(w, actions)
    ensures
      var w' := After(w, actions);
      && (w'.holder.Some? && w'.phase.Load? ==> w'.phase.cert == w'.newest)
      && (Lost(w, actions) ==> w'.loaded < w'.newest)
      && (!Lost(w, actions) ==> Consistent(w'))
      && (w'.holder.None? ==> (w'.loaded == w'.newest <==> !Lost(w, actions)))
    decreases |actions|
  {
    if actions != [] {
      NewestLoadedUnlessLost(w, Front(actions));
    }
  }

  /** The last answer a finished caller saw, at a moment of the history. */
  ghost predicate FinishedBy(w: World, actions: seq<Action>, k: nat, id: nat)
    requires Happens(w, actions)
  {
    && k < |actions| && Happens(w, actions[..k]) && actions[k].Act?
    && var was := After(w, actions[..k]);
       && Can(was, actions[k]) && was.holder == Some(id) && Next(was.phase, actions[k].answer).Done?
  }

  /** Over any run, a caller got Ok exactly when the last thing it saw was a healthy registration, and
      then it was healthy at that moment. */
  lemma {:induction false} OkMeansHealthy(w: World, actions: seq<Action>, id: nat) returns (k: nat)
    requires Happens(w, actions) && id in After(w, actions).finished && id !in w.finished
    ensures FinishedBy(w, actions, k, id)
    ensures After(w, actions).finished[id] <==> actions[k] == Act(Health(true))
    ensures After(w, actions).finished[id] ==> After(w, actions[..k]).healthy
    decreases |actions|
  {
    var front, last := Front(actions), Last(actions);
    var was := After(w, front);
    if last.Act? && was.holder == Some(id) && Next(was.phase, last.answer).Done? {
      k := |front|;
    } else {
      k := OkMeansHealthy(w, front, id);
      assert front[..k] == actions[..k];
    }
  }

  /** While the registration stays healthy, the callers queued up mint and load nothing, and all
      of them get Ok. */
  lemma {:induction false} HealthyQueueMintsNothing(w: World, actions: seq<Action>)
    requires w.healthy && w.holder.None? && Happens(w, actions) && Sicken !in actions
    ensures
      var w' := After(w, actions);
      && w'.healthy && w'.newest == w.newest && w'.loaded == w.loaded
      && (w'.holder.Some? ==> w'.phase.First?)
      && forall id :: id in w'.finished && id !in w.finished ==> w'.finished[id]
    decreases |actions|
  {
    if actions != [] {
      HealthyQueueMintsNothing(w, Front(actions));
    }
  }

  /** How many steps a recovery can still take. */
  function Remaining(p: Phase): nat {
    match p
    case First => 10
    case Refresh => 9
    case Second => 8
    case Mint => 7
    case Load(_) => 6
    case Register => 5
    case Third => 4
    case Sleep => 3
    case RefreshAgain => 2
    case Fourth => 1
    case Done(_) => 0
  }

  /** A recovery ends after at most ten answers, and mints at most once. */
  lemma {:induction false} RecoveryEnds(answers: seq<Answer>)
    requires Follow(answers).Some?
    ensures |answers| + Remaining(Follow(answers).value) <= 10
    ensures Mints(answers) <= if Remaining(Follow(answers).value) < 7 then 1 else 0
    decreases |answers|
  {
    if answers != [] {
      RecoveryEnds(answers[..|answers| - 1]);
    }
  }

  ghost function Mints(answers: seq<Answer>): nat {
    if answers == [] then 0
    else
      var a := answers[|answers| - 1];
      Mints(answers[..|answers| - 1]) + if a.Issued? && a.cert.Some? then 1 else 0
  }
}
