/** The client-side `ensureOptedIn` procedure: make sure an account is opted
    in to the CXT asset, issuing the opt-in transaction only when needed.

    The calls it makes to the network and the wallet (`checkCXTOptIn`,
    `getAlgoBalance`, `optInToCXT`) are not modelled; what each returns, or
    the error it throws, is an input (`Env`). What the procedure does is
    recorded as a log of effects: network reads, the opt-in write, timed
    waits and toast notifications. */
module AutoOptIn {

  /** What an awaited call produced: a value, or a thrown error with its
      `message` (the empty string stands for a missing message). */
  datatype Response<T> = Returns(value: T) | Throws(message: string)

  /** The answers the environment gives, in the order the procedure asks:
      the first opt-in check, the ALGO balance, the opt-in write, the check
      after one second and the check after two more. */
  datatype Env = Env(
    firstCheck: Response<bool>,
    balance: Response<int>,
    write: Response<()>,
    recheck: Response<bool>,
    retry: Response<bool>)

  datatype ToastKind = InfoToast | SuccessToast | WarningToast | ErrorToast

  datatype Effect =
    | CheckOptIn                            // checkCXTOptIn(account)
    | GetBalance                            // getAlgoBalance(account)
    | OptInWrite                            // optInToCXT(account)
    | Wait(ms: nat)                         // setTimeout delay
    | Notify(kind: ToastKind, message: Message) // toast?.<kind>(MessageText(message))

  /** The notifications the procedure can show; `MessageText` gives their wording. */
  datatype Message =
    | ConnectWallet
    | InsufficientAlgo
    | OptingIn
    | OptedIn
    | Pending
    | Cancelled
    | Failed(detail: string)

  /** Minimum balance, in microAlgos, the procedure demands before opting in. */
  const MIN_OPT_IN_BALANCE: int := 101000
  const FIRST_DELAY_MS: nat := 1000
  const RETRY_DELAY_MS: nat := 2000

  const FAILED_PREFIX: string := "Opt-in failed: "
  const UNKNOWN_ERROR: string := "Unknown error"

  /** The text shown for each notification. */
  function MessageText(m: Message): (t: string)
    ensures m.Failed? ==> t == FAILED_PREFIX + m.detail
  {
    match m
    case ConnectWallet => "Please connect your wallet first"
    case InsufficientAlgo =>
      "Insufficient ALGO. You need at least 0.101 ALGO to opt-in. Please fund your wallet: https://bank.testnet.algorand.network/"
    case OptingIn => "Opting in to $CXT token..."
    case OptedIn => "Successfully opted in to $CXT!"
    case Pending => "Opt-in transaction confirmed, but status may take a moment to update."
    case Cancelled => "Opt-in was cancelled. Please try again."
    case Failed(detail) => FAILED_PREFIX + detail
  }

  /** `toast?.kind(text)`: nothing happens when no toast function is given. */
  function Toast(hasToast: bool, kind: ToastKind, m: Message): (e: seq<Effect>)
    ensures |e| <= 1
    ensures Notify(kind, m) in e <==> hasToast
    ensures forall x :: x in e ==> x.Notify?
  {
    if hasToast then [Notify(kind, m)] else []
  }

  /** `sub` occurs in `s` starting at index `i`. */
  predicate OccursAt(s: string, sub: string, i: int)
  {
    0 <= i && i + |sub| <= |s| && s[i..i + |sub|] == sub
  }

  /** `s.includes(sub)`. */
  function Contains(s: string, sub: string): (b: bool)
    ensures b <==> exists i :: OccursAt(s, sub, i)
    decreases |s|
  {
    if |s| < |sub| then false
    else if s[..|sub|] == sub then assert OccursAt(s, sub, 0); true
    else
      var rest := Contains(s[1..], sub);
      assert rest ==> exists i :: OccursAt(s, sub, i) by {
        if rest {
          var j :| OccursAt(s[1..], sub, j);
          assert s[j + 1..j + 1 + |sub|] == s[1..][j..j + |sub|];
          assert OccursAt(s, sub, j + 1);
        }
      }
      assert (exists i :: OccursAt(s, sub, i)) ==> rest by {
        if exists i :: OccursAt(s, sub, i) {
          var i :| OccursAt(s, sub, i);
          assert s[..|sub|] == s[0..|sub|];
          assert i != 0;
          assert s[1..][i - 1..i - 1 + |sub|] == s[i..i + |sub|];
          assert OccursAt(s[1..], sub, i - 1);
        }
      }
      rest
  }

  /** `error.message || 'Unknown error'`. */
  function ErrorText(message: string): (t: string)
    ensures t != []
    ensures message != [] ==> t == message
  {
    if message == "" then UNKNOWN_ERROR else message
  }

  /** The `catch` block's test for a cancelled or rejected signing. */
  predicate Cancellation(text: string)
  {
    Contains(text, "cancel") || Contains(text, "rejected") || Contains(text, "cancelled")
  }

  /** The `catch` block's test for a balance problem. */
  predicate BalanceProblem(text: string)
  {
    Contains(text, "Insufficient ALGO") || Contains(text, "balance")
  }

  /** The notification the `catch` block shows for a thrown error: a warning
      for a cancelled or rejected signing, nothing for a balance problem
      (its toast was meant to be shown already), an error otherwise. */
  function CatchToast(hasToast: bool, message: string): (e: seq<Effect>)
    ensures |e| <= 1 && forall x :: x in e ==> x.Notify?
    ensures !hasToast ==> e == []
    ensures hasToast && Cancellation(ErrorText(message)) ==> e == [Notify(WarningToast, Cancelled)]
    ensures !Cancellation(ErrorText(message)) && BalanceProblem(ErrorText(message)) ==> e == []
    ensures hasToast && !Cancellation(ErrorText(message)) && !BalanceProblem(ErrorText(message)) ==>
      e == [Notify(ErrorToast, Failed(ErrorText(message)))]
  {
    var msg := ErrorText(message);
    if Cancellation(msg) then
      Toast(hasToast, WarningToast, Cancelled)
    else if BalanceProblem(msg) then
      []
    else
      Toast(hasToast, ErrorToast, Failed(msg))
  }

  /** The third test in the cancellation check adds nothing: a message that
      contains "cancelled" already contains "cancel". */
  lemma CancelledContainsCancel(message: string)
    requires Contains(message, "cancelled")
    ensures Contains(message, "cancel")
    ensures Cancellation(message) <==> Contains(message, "cancel") || Contains(message, "rejected")
  {
    var i :| OccursAt(message, "cancelled", i);
    var cancelled: string := "cancelled";
    assert cancelled[..6] == "cancel";
    assert message[i..i + 6] == message[i..i + 9][..6];
    assert OccursAt(message, "cancel", i);
  }

  /** Reference statement of when the procedure reports success: an account
      is given, no awaited call it reaches throws, and either the account is
      already opted in or the balance guard passes and the opt-in write goes
      through (success is then reported whatever the two re-checks say). */
  predicate Succeeds(account: string, env: Env)
  {
    account != [] && Proceeds(env)
  }

  /** The `try` block returns true. */
  predicate Proceeds(env: Env)
  {
    && env.firstCheck.Returns?
    && (|| env.firstCheck.value
        || (&& env.balance.Returns? && env.balance.value >= MIN_OPT_IN_BALANCE
            && env.write.Returns? && env.recheck.Returns?
            && (env.recheck.value || env.retry.Returns?)))
  }

  /** The error that reaches the `catch` block, if any: the first awaited
      call, among those the procedure gets to, that throws. */
  function Thrown(env: Env): Option<string>
  {
    if env.firstCheck.Throws? then Some(env.firstCheck.message)
    else if env.firstCheck.value then None
    else if env.balance.Throws? then Some(env.balance.message)
    else if env.balance.value < MIN_OPT_IN_BALANCE then None
    else if env.write.Throws? then Some(env.write.message)
    else if env.recheck.Throws? then Some(env.recheck.message)
    else if env.recheck.value then None
    else if env.retry.Throws? then Some(env.retry.message)
    else None
  }

  datatype Option<T> = None | Some(value: T)

  /** How the `try` block ended: a value returned from inside it, or an error
      thrown out of it. */
  datatype Attempt = Done(ok: bool) | Threw(message: string)

  /** Every answer is given and says the account is still not opted in:
      the optimistic path. */
  predicate NeverSeen(env: Env)
  {
    && env.firstCheck == Returns(false) && env.balance.Returns?
    && env.balance.value >= MIN_OPT_IN_BALANCE && env.write.Returns?
    && env.recheck == Returns(false) && env.retry == Returns(false)
  }

  /** The balance guard passes: the account is not opted in yet and holds
      enough ALGO, so the opt-in write is issued. */
  predicate WriteIssued(env: Env)
  {
    env.firstCheck == Returns(false) && env.balance.Returns? && env.balance.value >= MIN_OPT_IN_BALANCE
  }

  // ----- The effect log, as functions of the answers ---------------------------

  /** What happens after the opt-in write. */
  function ConfirmEffects(hasToast: bool, recheck: Response<bool>, retry: Response<bool>): seq<Effect>
  {
    var first := [Wait(FIRST_DELAY_MS), CheckOptIn];
    if recheck.Throws? then first
    else if recheck.value then first + Toast(hasToast, SuccessToast, OptedIn)
    else
      var second := first + [Wait(RETRY_DELAY_MS), CheckOptIn];
      if retry.Throws? then second
      else if retry.value then second + Toast(hasToast, SuccessToast, OptedIn)
      else second + Toast(hasToast, WarningToast, Pending)
  }

  /** What happens inside the `try` block. */
  function TryEffects(hasToast: bool, env: Env): seq<Effect>
  {
    if env.firstCheck.Throws? || env.firstCheck.value then [CheckOptIn]
    else if env.balance.Throws? then [CheckOptIn, GetBalance]
    else if env.balance.value < MIN_OPT_IN_BALANCE then
      [CheckOptIn, GetBalance] + Toast(hasToast, ErrorToast, InsufficientAlgo)
    else
      var written := [CheckOptIn, GetBalance] + Toast(hasToast, InfoToast, OptingIn) + [OptInWrite];
      if env.write.Throws? then written
      else written + ConfirmEffects(hasToast, env.recheck, env.retry)
  }

  /** Everything `ensureOptedIn` does, in order. */
  function Trace(account: string, hasToast: bool, env: Env): seq<Effect>
  {
    if account == [] then Toast(hasToast, ErrorToast, ConnectWallet)
    else
      match Thrown(env)
      case Some(message) => TryEffects(hasToast, env) + CatchToast(hasToast, message)
      case None => TryEffects(hasToast, env)
  }

  // ----- The procedure ---------------------------------------------------------

  /** The part of the `try` block after the opt-in write: wait a second and
      check; if the opt-in is not seen yet, wait two more and check again;
      report success in every case, with a warning when neither check saw
      the opt-in. */
  method ConfirmOptIn(hasToast: bool, recheck: Response<bool>, retry: Response<bool>)
    returns (res: Attempt, effects: seq<Effect>)
    ensures res.Threw? <==> recheck.Throws? || (recheck == Returns(false) && retry.Throws?)
    ensures res.Threw? ==> res.message == (if recheck.Throws? then recheck.message else retry.message)
    ensures res.Done? ==> res.ok
    ensures effects == ConfirmEffects(hasToast, recheck, retry)
  {
    effects := [Wait(FIRST_DELAY_MS), CheckOptIn];
    if recheck.Throws? {
      return Threw(recheck.message), effects;
    }
    if recheck.value {
      effects := effects + Toast(hasToast, SuccessToast, OptedIn);
      return Done(true), effects;
    }
    effects := effects + [Wait(RETRY_DELAY_MS), CheckOptIn];
    if retry.Throws? {
      return Threw(retry.message), effects;
    }
    if retry.value {
      effects := effects + Toast(hasToast, SuccessToast, OptedIn);
      return Done(true), effects;
    }
    effects := effects + Toast(hasToast, WarningToast, Pending);
    res := Done(true);
  }

  /** The body of the `try` block. */
  method AttemptOptIn(hasToast: bool, env: Env) returns (res: Attempt, effects: seq<Effect>)
    ensures res.Threw? <==> Thrown(env).Some?
    ensures res.Threw? ==> res.message == Thrown(env).value
    ensures res.Done? ==> res.ok == Proceeds(env)
    ensures effects == TryEffects(hasToast, env)
  {
    effects := [CheckOptIn];
    if env.firstCheck.Throws? {
      return Threw(env.firstCheck.message), effects;
    }
    if env.firstCheck.value {
      return Done(true), effects;
    }
    effects := effects + [GetBalance];
    if env.balance.Throws? {
      return Threw(env.balance.message), effects;
    }
    if env.balance.value < MIN_OPT_IN_BALANCE {
      effects := effects + Toast(hasToast, ErrorToast, InsufficientAlgo);
      return Done(false), effects;
    }
    effects := effects + Toast(hasToast, InfoToast, OptingIn) + [OptInWrite];
    if env.write.Throws? {
      return Threw(env.write.message), effects;
    }
    var confirmed;
    res, confirmed := ConfirmOptIn(hasToast, env.recheck, env.retry);
    effects := effects + confirmed;
  }

  /** `ensureOptedIn(account, toast)`: `ok` is the boolean the promise
      resolves to, `effects` what the procedure did on the way. */
  method EnsureOptedIn(account: string, hasToast: bool, env: Env) returns (ok: bool, effects: seq<Effect>)
    ensures ok == Succeeds(account, env)
    ensures effects == Trace(account, hasToast, env)
  {
    if account == [] {
      effects := Toast(hasToast, ErrorToast, ConnectWallet);
      return false, effects;
    }
    var res;
    res, effects := AttemptOptIn(hasToast, env);
    match res
    case Done(b) =>
      ok := b;
    case Threw(message) =>
      effects := effects + CatchToast(hasToast, message);
      ok := false;
  }

  // ----- What the procedure promises ---------------------------------------------

  /** Without an account nothing reaches the network. */
  lemma NoAccountNoNetwork(hasToast: bool, env: Env)
    ensures !Succeeds([], env)
    ensures Trace([], hasToast, env) == Toast(hasToast, ErrorToast, ConnectWallet)
    ensures CheckOptIn !in Trace([], hasToast, env) && GetBalance !in Trace([], hasToast, env)
    ensures OptInWrite !in Trace([], hasToast, env)
  {
  }

  /** An account already opted in costs one check: no balance read, no write. */
  lemma AlreadyOptedInIsIdempotent(account: string, hasToast: bool, env: Env)
    requires account != [] && env.firstCheck == Returns(true)
    ensures Succeeds(account, env)
    ensures Trace(account, hasToast, env) == [CheckOptIn]
  {
  }

  /** Too little ALGO: the procedure fails without writing. */
  lemma LowBalanceNoWrite(account: string, hasToast: bool, env: Env)
    requires account != [] && env.firstCheck == Returns(false)
    requires env.balance.Returns? && env.balance.value < MIN_OPT_IN_BALANCE
    ensures !Succeeds(account, env)
    ensures Trace(account, hasToast, env) == [CheckOptIn, GetBalance] + Toast(hasToast, ErrorToast, InsufficientAlgo)
    ensures OptInWrite !in Trace(account, hasToast, env)
  {
    NotificationsOnly(Toast(hasToast, ErrorToast, InsufficientAlgo));
  }

  /** At most one opt-in write per call, and exactly one when the balance
      guard passes. */
  lemma AtMostOneWrite(account: string, hasToast: bool, env: Env)
    ensures multiset(Trace(account, hasToast, env))[OptInWrite]
         == if account != [] && WriteIssued(env) then 1 else 0
  {
    var t := Trace(account, hasToast, env);
    if account == [] {
      NotificationsOnly(t);
    } else {
      var shown := if Thrown(env).Some? then CatchToast(hasToast, Thrown(env).value) else [];
      NotificationsOnly(shown);
      assert t == TryEffects(hasToast, env) + shown;
      TryEffectsCounts(hasToast, env);
    }
  }

  /** Besides the first check, only two re-checks, and only after a write. */
  lemma ChecksBounded(account: string, hasToast: bool, env: Env)
    ensures multiset(Trace(account, hasToast, env))[CheckOptIn]
         <= if account != [] && WriteIssued(env) then 3 else 1
  {
    var t := Trace(account, hasToast, env);
    if account == [] {
      NotificationsOnly(t);
    } else {
      var shown := if Thrown(env).Some? then CatchToast(hasToast, Thrown(env).value) else [];
      NotificationsOnly(shown);
      assert t == TryEffects(hasToast, env) + shown;
      TryEffectsCounts(hasToast, env);
    }
  }

  /** The delays are none, one second, or one second then two seconds. */
  lemma DelaysBounded(account: string, hasToast: bool, env: Env)
    ensures DelaysAllowed(Waits(Trace(account, hasToast, env)))
    ensures Waits(Trace(account, hasToast, env)) != [] ==> account != [] && WriteIssued(env)
  {
    var t := Trace(account, hasToast, env);
    if account == [] {
      NoWaits(t);
    } else {
      var shown := if Thrown(env).Some? then CatchToast(hasToast, Thrown(env).value) else [];
      NoWaits(shown);
      assert t == TryEffects(hasToast, env) + shown;
      WaitsAppend(TryEffects(hasToast, env), shown);
      TryEffectsWaits(hasToast, env);
    }
  }

  /** Optimistic success: when neither re-check sees the opt-in, the result
      is still true, and the last thing shown is the warning. */
  lemma OptimisticSuccess(account: string, hasToast: bool, env: Env)
    requires account != [] && NeverSeen(env)
    ensures Succeeds(account, env)
    ensures hasToast ==> Last(Trace(account, hasToast, env)) == Some(Notify(WarningToast, Pending))
  {
  }

  /** An error thrown by any awaited call makes the result false; the
      `catch` block's notification, if any, is the last effect. */
  lemma ThrowMeansFailure(account: string, hasToast: bool, env: Env)
    requires account != [] && Thrown(env).Some?
    ensures !Succeeds(account, env)
    ensures var shown := CatchToast(hasToast, Thrown(env).value);
      |shown| <= |Trace(account, hasToast, env)|
      && Trace(account, hasToast, env)[|Trace(account, hasToast, env)| - |shown|..] == shown
  {
  }

  /** A thrown cancellation is reported as a warning, not an error. */
  lemma CancellationWarns(account: string, env: Env)
    requires account != [] && Thrown(env).Some?
    requires Contains(ErrorText(Thrown(env).value), "cancel") || Contains(ErrorText(Thrown(env).value), "rejected")
    ensures !Succeeds(account, env)
    ensures Last(Trace(account, true, env)) == Some(Notify(WarningToast, Cancelled))
  {
  }

  function Last<T>(s: seq<T>): Option<T>
  {
    if s == [] then None else Some(s[|s| - 1])
  }

  lemma TryEffectsCounts(hasToast: bool, env: Env)
    ensures multiset(TryEffects(hasToast, env))[OptInWrite] == if WriteIssued(env) then 1 else 0
    ensures multiset(TryEffects(hasToast, env))[CheckOptIn] <= if WriteIssued(env) then 3 else 1
  {
    var checked := [CheckOptIn, GetBalance];
    assert multiset(checked) == multiset{CheckOptIn, GetBalance};
    if env.firstCheck.Throws? || env.firstCheck.value {
      assert multiset([CheckOptIn]) == multiset{CheckOptIn};
    } else if env.balance.Throws? {
    } else if env.balance.value < MIN_OPT_IN_BALANCE {
      NotificationsOnly(Toast(hasToast, ErrorToast, InsufficientAlgo));
    } else {
      var info := Toast(hasToast, InfoToast, OptingIn);
      NotificationsOnly(info);
      var written := checked + info + [OptInWrite];
      assert multiset(written)[OptInWrite] == 1 && multiset(written)[CheckOptIn] == 1;
      if !env.write.Throws? {
        ConfirmCounts(hasToast, env.recheck, env.retry);
        assert TryEffects(hasToast, env) == written + ConfirmEffects(hasToast, env.recheck, env.retry);
      }
    }
  }

  lemma ConfirmCounts(hasToast: bool, recheck: Response<bool>, retry: Response<bool>)
    ensures multiset(ConfirmEffects(hasToast, recheck, retry))[OptInWrite] == 0
    ensures multiset(ConfirmEffects(hasToast, recheck, retry))[CheckOptIn] <= 2
  {
    var first := [Wait(FIRST_DELAY_MS), CheckOptIn];
    assert multiset(first) == multiset{Wait(FIRST_DELAY_MS), CheckOptIn};
    var second := first + [Wait(RETRY_DELAY_MS), CheckOptIn];
    assert multiset(second) == multiset{Wait(FIRST_DELAY_MS), CheckOptIn, Wait(RETRY_DELAY_MS), CheckOptIn};
    if recheck.Throws? {
    } else if recheck.value {
      NotificationsOnly(Toast(hasToast, SuccessToast, OptedIn));
    } else if retry.Throws? {
    } else if retry.value {
      NotificationsOnly(Toast(hasToast, SuccessToast, OptedIn));
    } else {
      NotificationsOnly(Toast(hasToast, WarningToast, Pending));
    }
  }

  lemma TryEffectsWaits(hasToast: bool, env: Env)
    ensures DelaysAllowed(Waits(TryEffects(hasToast, env)))
    ensures Waits(TryEffects(hasToast, env)) != [] ==> WriteIssued(env)
  {
    var checked := [CheckOptIn, GetBalance];
    NoWaits(checked);
    if env.firstCheck.Throws? || env.firstCheck.value {
      NoWaits([CheckOptIn]);
    } else if env.balance.Throws? {
    } else if env.balance.value < MIN_OPT_IN_BALANCE {
      var refused := Toast(hasToast, ErrorToast, InsufficientAlgo);
      NoWaits(refused);
      WaitsAppend(checked, refused);
    } else {
      var written := checked + Toast(hasToast, InfoToast, OptingIn) + [OptInWrite];
      NoWaits(written);
      if !env.write.Throws? {
        WaitsAppend(written, ConfirmEffects(hasToast, env.recheck, env.retry));
        ConfirmWaits(hasToast, env.recheck, env.retry);
      }
    }
  }

  lemma ConfirmWaits(hasToast: bool, recheck: Response<bool>, retry: Response<bool>)
    ensures Waits(ConfirmEffects(hasToast, recheck, retry)) == [FIRST_DELAY_MS]
         || Waits(ConfirmEffects(hasToast, recheck, retry)) == [FIRST_DELAY_MS, RETRY_DELAY_MS]
  {
    var first := [Wait(FIRST_DELAY_MS), CheckOptIn];
    WaitThenCheck(FIRST_DELAY_MS);
    var second := [Wait(RETRY_DELAY_MS), CheckOptIn];
    WaitThenCheck(RETRY_DELAY_MS);
    WaitsAppend(first, second);
    var ok := Toast(hasToast, SuccessToast, OptedIn);
    var pending := Toast(hasToast, WarningToast, Pending);
    NoWaits(ok);
    NoWaits(pending);
    WaitsAppend(first, ok);
    WaitsAppend(first + second, ok);
    WaitsAppend(first + second, pending);
  }

  // ----- Waits in an effect log -----------------------------------------------

  /** No delay, one second, or one second and then two seconds. */
  predicate DelaysAllowed(delays: seq<nat>)
  {
    delays == [] || delays == [FIRST_DELAY_MS] || delays == [FIRST_DELAY_MS, RETRY_DELAY_MS]
  }

  /** The delays of the `Wait` effects in `e`, in order. */
  function Waits(e: seq<Effect>): seq<nat>
    decreases |e|
  {
    if e == [] then []
    else (if e[0].Wait? then [e[0].ms] else []) + Waits(e[1..])
  }

  lemma {:induction false} WaitsAppend(a: seq<Effect>, b: seq<Effect>)
    ensures Waits(a + b) == Waits(a) + Waits(b)
    decreases |a|
  {
    if a == [] {
      assert a + b == b;
    } else {
      assert (a + b)[1..] == a[1..] + b;
      WaitsAppend(a[1..], b);
    }
  }

  /** A log with no `Wait` in it has no delays. */
  lemma {:induction false} NoWaits(e: seq<Effect>)
    requires forall i :: 0 <= i < |e| ==> !e[i].Wait?
    ensures Waits(e) == []
    decreases |e|
  {
    if e != [] {
      NoWaits(e[1..]);
    }
  }

  /** A notification log holds no network call. */
  lemma NotificationsOnly(e: seq<Effect>)
    requires |e| <= 1 && forall x :: x in e ==> x.Notify?
    ensures multiset(e)[CheckOptIn] == 0 && multiset(e)[OptInWrite] == 0 && multiset(e)[GetBalance] == 0
  {
    if e != [] {
      assert e == [e[0]] && e[0] in e;
    }
  }

  lemma WaitThenCheck(ms: nat)
    ensures Waits([Wait(ms), CheckOptIn]) == [ms]
  {
    assert [Wait(ms), CheckOptIn][1..] == [CheckOptIn];
    NoWaits([CheckOptIn]);
  }
}
