/** Two-stage confirmation of pfSense changes and OpenVPN configurations. A request is started, confirmed
    once, and then applied with its own code; the executor that carries it out is an oracle that either
    completes or raises. Times are whole seconds. */
module Confirmation {
  import opened Options
  import opened Text

  datatype Kind = PfSense | OpenVpn

  datatype Config = Config(kind: Kind, ttl: int)

  datatype Stage = AwaitingFirst | AwaitingSecond

  datatype Pending = Pending(created: int, payload: string, stage: Stage, code: string, firstConfirmed: int)

  /** What the operator sends. Applying says whether the executor would complete or raise. */
  datatype Message =
    | Start(text: string, code: string)  // the code is the random one that the bot makes up
    | Confirm
    | Cancel
    | Apply(entered: string, completes: bool)
    | Other

  /** A message with the times of its arrival and of its handling. */
  datatype Input = Input(arrived: int, handled: int, message: Message)

  /** The persisted request, and the text that a message got executed, if any. */
  datatype Outcome = Outcome(pending: Option<Pending>, executed: Option<string>)

  function Expire(cfg: Config, pending: Option<Pending>, now: int): Option<Pending> {
    if pending.Some? && now - pending.value.created > cfg.ttl then None else pending
  }

  /** An OpenVPN request needs a name; a pfSense request is whatever was written. */
  predicate Starts(cfg: Config, message: Message) {
    message.Start? && (cfg.kind.OpenVpn? ==> Trim(message.text) != "")
  }

  /** Whether an execution ends the request: the OpenVPN executor's `finally` always does. */
  predicate Closes(cfg: Config, message: Message) {
    message.Apply? && (cfg.kind.OpenVpn? || message.completes)
  }

  function Handle(cfg: Config, before: Option<Pending>, input: Input): Outcome {
    var arrived := Expire(cfg, before, input.arrived);
    match input.message
    case Start(text, code) =>
      if Starts(cfg, input.message) then
        Outcome(Some(Pending(input.handled, Trim(text), AwaitingFirst, code, 0)), None)
      else Outcome(arrived, None)
    case Confirm =>
      var live := Expire(cfg, arrived, input.handled);
      if live.Some? && live.value.stage.AwaitingFirst? then
        Outcome(Some(live.value.(stage := AwaitingSecond, firstConfirmed := input.handled)), None)
      else Outcome(live, None)
    case Cancel => Outcome(None, None)
    case Apply(entered, completes) =>
      var live := Expire(cfg, arrived, input.handled);
      if live.Some? && live.value.stage.AwaitingSecond? && Trim(entered) == live.value.code then
        Outcome(if Closes(cfg, input.message) then None else live, Some(live.value.payload))
      else Outcome(live, None)
    case Other => Outcome(arrived, None)
  }

  // ----- The program --------------------------------------------------------------------

  class ConfirmationFlow {
    const cfg: Config
    var pending: Option<Pending>
    var executions: seq<string>  // what was handed to the executor

    constructor (cfg: Config)
      ensures this.cfg == cfg && pending == None && executions == []
    {
      this.cfg, pending, executions := cfg, None, [];
    }

    method ExpireIfNeeded(now: int)
      modifies this
      ensures pending == Expire(cfg, old(pending), now) && executions == old(executions)
    {
      if pending.Some? && now - pending.value.created > cfg.ttl {
        pending := None;
      }
    }

    method StartFlow(text: string, code: string, now: int)
      modifies this
      ensures pending == if cfg.kind.OpenVpn? && Trim(text) == "" then old(pending)
        else Some(Pending(now, Trim(text), AwaitingFirst, code, 0))
      ensures executions == old(executions)
    {
      var payload := Trim(text);
      if cfg.kind.OpenVpn? && payload == "" {
        return;
      }
      pending := Some(Pending(now, payload, AwaitingFirst, code, 0));
    }

    method ConfirmStageOne(now: int)
      modifies this
      ensures Outcome(pending, None) == Handle(cfg, old(pending), Input(now, now, Confirm))
      ensures pending == match old(pending)
        case None => None
        case Some(p) =>
          if now - p.created > cfg.ttl then None
          else if p.stage.AwaitingFirst? then Some(p.(stage := AwaitingSecond, firstConfirmed := now))
          else Some(p)
      ensures executions == old(executions)
    {
      ExpireIfNeeded(now);
      if pending.None? || pending.value.stage != AwaitingFirst {
        return;
      }
      pending := Some(pending.value.(stage := AwaitingSecond, firstConfirmed := now));
    }

    method CancelRequest()
      modifies this
      ensures pending == None && executions == old(executions)
    {
      pending := None;
    }

    /** Hands the request to the executor; `completes` is false when the executor raises. */
    method ApplyRequest(entered: string, completes: bool, now: int) returns (raised: bool)
      modifies this
      ensures var outcome := Handle(cfg, old(pending), Input(now, now, Apply(entered, completes)));
        && pending == outcome.pending
        && executions == old(executions) + (if outcome.executed.Some? then [outcome.executed.value] else [])
      ensures raised <==> |executions| > |old(executions)| && cfg.kind.PfSense? && !completes
      ensures |executions| > |old(executions)| ==> pending == if raised then old(pending) else None
    {
      raised := false;
      ExpireIfNeeded(now);
      if pending.None? || pending.value.stage != AwaitingSecond || Trim(entered) != pending.value.code {
        return;
      }
      executions := executions + [pending.value.payload];
      if cfg.kind.OpenVpn? || completes {
        pending := None;
      }
      raised := cfg.kind.PfSense? && !completes;
    }

    method ProcessMessage(input: Input)
      modifies this
      ensures var outcome := Handle(cfg, old(pending), input);
        && pending == outcome.pending
        && executions == old(executions) + (if outcome.executed.Some? then [outcome.executed.value] else [])
    {
      ExpireIfNeeded(input.arrived);
      match input.message
      case Start(text, code) => StartFlow(text, code, input.handled);
      case Confirm => ConfirmStageOne(input.handled);
      case Cancel => CancelRequest();
      case Apply(entered, completes) => var _ := ApplyRequest(entered, completes, input.handled);
      case Other =>
    }
  }

  // ----- Sequences of messages ----------------------------------------------------------

  /** Clocks do not run backwards. */
  ghost predicate Clocked(inputs: seq<Input>) {
    && (forall i :: 0 <= i < |inputs| ==> inputs[i].arrived <= inputs[i].handled)
    && (forall i, j :: 0 <= i < j < |inputs| ==> inputs[i].handled <= inputs[j].arrived)
  }

  /** The request that is pending after the first `n` messages. */
  function PendingAt(cfg: Config, inputs: seq<Input>, n: nat): Option<Pending>
    requires n <= |inputs|
  {
    if n == 0 then None else Handle(cfg, PendingAt(cfg, inputs, n - 1), inputs[n - 1]).pending
  }

  /** What message `i` gets executed. */
  function ExecutedAt(cfg: Config, inputs: seq<Input>, i: nat): Option<string>
    requires i < |inputs|
  {
    Handle(cfg, PendingAt(cfg, inputs, i), inputs[i]).executed
  }

  /** Message `j` ends whatever was requested before it: another start, a cancellation, or an execution
      that closes the request. */
  predicate Ends(cfg: Config, inputs: seq<Input>, j: nat)
    requires j < |inputs|
  {
    || Starts(cfg, inputs[j].message) || inputs[j].message.Cancel?
    || (ExecutedAt(cfg, inputs, j).Some? && Closes(cfg, inputs[j].message))
  }

  /** The request started by message `s` has not been ended by the messages before `n`. */
  ghost predicate Live(cfg: Config, inputs: seq<Input>, s: nat, n: nat)
    requires n <= |inputs|
  {
    s < n && Starts(cfg, inputs[s].message) && forall j :: s < j < n ==> !Ends(cfg, inputs, j)
  }

  ghost predicate ConfirmedIn(inputs: seq<Input>, s: nat, n: nat)
    requires n <= |inputs|
  {
    exists c: nat :: s < c < n && inputs[c].message.Confirm?
  }

  /** The pending request is the one that message `s` started. */
  ghost predicate Describes(cfg: Config, inputs: seq<Input>, s: nat, n: nat, p: Pending)
    requires n <= |inputs|
  {
    && Live(cfg, inputs, s, n)
    && p.created == inputs[s].handled
    && p.payload == Trim(inputs[s].message.text)
    && p.code == inputs[s].message.code
    && (p.stage.AwaitingSecond? <==> ConfirmedIn(inputs, s, n))
  }

  ghost predicate Explained(cfg: Config, inputs: seq<Input>, n: nat)
    requires n <= |inputs|
  {
    match PendingAt(cfg, inputs, n)
    case Some(p) => exists s: nat :: Describes(cfg, inputs, s, n, p)
    case None => forall s: nat :: Live(cfg, inputs, s, n) ==> inputs[n - 1].handled - inputs[s].handled > cfg.ttl
  }

  /** Every pending request is explained by the message that started it; without one, every request is
      ended or over its time. */
  lemma {:induction false} AlwaysExplained(cfg: Config, inputs: seq<Input>, n: nat)
    requires Clocked(inputs) && n <= |inputs|
    ensures Explained(cfg, inputs, n)
  {
    hide Ends, Trim, Handle, ConfirmedIn;
    if n == 0 {
      assert PendingAt(cfg, inputs, 0).None?;
      assert forall s: nat :: !Live(cfg, inputs, s, 0);
    } else {
      AlwaysExplained(cfg, inputs, n - 1);
      var before := PendingAt(cfg, inputs, n - 1);
      if before.Some? {
        var s: nat :| Describes(cfg, inputs, s, n - 1, before.value);
        ExplainFromPending(cfg, inputs, n, s);
      } else {
        ExplainFromNothing(cfg, inputs, n);
      }
    }
  }

  lemma LiveUnique(cfg: Config, inputs: seq<Input>, s: nat, t: nat, n: nat)
    requires n <= |inputs| && Live(cfg, inputs, s, n) && Live(cfg, inputs, t, n)
    ensures s == t
  {
    hide ExecutedAt, PendingAt, Closes;
    assert Ends(cfg, inputs, s) && Ends(cfg, inputs, t);
  }

  lemma LiveBefore(cfg: Config, inputs: seq<Input>, s: nat, n: nat)
    requires 0 < n <= |inputs|
    ensures Live(cfg, inputs, s, n) <==>
      (s < n - 1 && Live(cfg, inputs, s, n - 1) && !Ends(cfg, inputs, n - 1))
      || (s == n - 1 && Starts(cfg, inputs[s].message))
  {
  }

  lemma ExplainFromNothing(cfg: Config, inputs: seq<Input>, n: nat)
    requires Clocked(inputs) && 0 < n <= |inputs|
    requires Explained(cfg, inputs, n - 1) && PendingAt(cfg, inputs, n - 1).None?
    ensures Explained(cfg, inputs, n)
  {
    hide Ends, Trim;
    var i := n - 1;
    if Starts(cfg, inputs[i].message) {
      LiveBefore(cfg, inputs, i, n);
      assert Describes(cfg, inputs, i, n, PendingAt(cfg, inputs, n).value);
    } else {
      forall s: nat | Live(cfg, inputs, s, n)
        ensures inputs[n - 1].handled - inputs[s].handled > cfg.ttl
      {
        LiveBefore(cfg, inputs, s, n);
        assert inputs[n - 2].handled <= inputs[n - 1].handled;
      }
    }
  }

  lemma ExplainFromPending(cfg: Config, inputs: seq<Input>, n: nat, s: nat)
    requires Clocked(inputs) && 0 < n <= |inputs|
    requires PendingAt(cfg, inputs, n - 1).Some? && Describes(cfg, inputs, s, n - 1, PendingAt(cfg, inputs, n - 1).value)
    ensures Explained(cfg, inputs, n)
  {
    hide Trim;
    var i := n - 1;
    var after := PendingAt(cfg, inputs, n);
    LiveBefore(cfg, inputs, s, n);
    if Starts(cfg, inputs[i].message) {
      LiveBefore(cfg, inputs, i, n);
      assert Describes(cfg, inputs, i, n, after.value);
    } else if after.Some? {
      assert !Ends(cfg, inputs, i);
      ConfirmedNext(inputs, s, n);
      assert Describes(cfg, inputs, s, n, after.value);
    } else {
      forall t: nat | Live(cfg, inputs, t, n)
        ensures inputs[n - 1].handled - inputs[t].handled > cfg.ttl
      {
        LiveBefore(cfg, inputs, t, n);
        LiveUnique(cfg, inputs, s, t, n - 1);
      }
    }
  }

  lemma ConfirmedNext(inputs: seq<Input>, s: nat, n: nat)
    requires 0 < n <= |inputs| && s < n - 1
    ensures ConfirmedIn(inputs, s, n) <==> ConfirmedIn(inputs, s, n - 1) || inputs[n - 1].message.Confirm?
  {
    if inputs[n - 1].message.Confirm? {
      assert s < n - 1 < n;
    }
  }

  /** Message `i` applies, with its own code and within its time, the request that message `s` started and
      message `c` confirmed; nothing ended that request in between. */
  ghost predicate Authorised(cfg: Config, inputs: seq<Input>, s: nat, c: nat, i: nat)
    requires i < |inputs|
  {
    && s < c < i && Live(cfg, inputs, s, i)
    && inputs[c].message.Confirm?
    && inputs[i].message.Apply? && Trim(inputs[i].message.entered) == inputs[s].message.code
    && inputs[i].handled - inputs[s].handled <= cfg.ttl
  }

  ghost predicate IsAuthorised(cfg: Config, inputs: seq<Input>, i: nat)
    requires i < |inputs|
  {
    exists s: nat, c: nat :: Authorised(cfg, inputs, s, c, i)
  }

  /** A text is executed exactly when it is authorised, and then it is the text that was started. */
  lemma ExecutedIffAuthorised(cfg: Config, inputs: seq<Input>, i: nat)
    requires Clocked(inputs) && i < |inputs|
    ensures ExecutedAt(cfg, inputs, i).Some? <==> IsAuthorised(cfg, inputs, i)
    ensures forall s: nat, c: nat :: Authorised(cfg, inputs, s, c, i) ==>
      ExecutedAt(cfg, inputs, i) == Some(Trim(inputs[s].message.text))
  {
    hide Ends, Trim, ExecutedAt, PendingAt, Explained;
    AlwaysExplained(cfg, inputs, i);
    forall s: nat, c: nat | Authorised(cfg, inputs, s, c, i)
      ensures inputs[s].message.Start? && ExecutedAt(cfg, inputs, i) == Some(Trim(inputs[s].message.text))
    {
      AuthorisedExecutes(cfg, inputs, s, c, i);
    }
    if ExecutedAt(cfg, inputs, i).Some? {
      ExecutedIsAuthorised(cfg, inputs, i);
    }
  }

  lemma ExecutedIsAuthorised(cfg: Config, inputs: seq<Input>, i: nat)
    requires Clocked(inputs) && i < |inputs|
    requires Explained(cfg, inputs, i) && ExecutedAt(cfg, inputs, i).Some?
    ensures IsAuthorised(cfg, inputs, i)
  {
    hide Ends, Trim, Starts;
    var p := PendingAt(cfg, inputs, i).value;
    var s: nat :| Describes(cfg, inputs, s, i, p);
    assert p.stage.AwaitingSecond?;
    var c: nat :| s < c < i && inputs[c].message.Confirm?;
    assert Authorised(cfg, inputs, s, c, i);
  }

  lemma AuthorisedExecutes(cfg: Config, inputs: seq<Input>, s: nat, c: nat, i: nat)
    requires Clocked(inputs) && i < |inputs| && Authorised(cfg, inputs, s, c, i)
    requires Explained(cfg, inputs, i)
    ensures inputs[s].message.Start? && ExecutedAt(cfg, inputs, i) == Some(Trim(inputs[s].message.text))
  {
    hide Ends, Trim;
    assert inputs[i - 1].handled <= inputs[i].arrived <= inputs[i].handled;
    var p := PendingAt(cfg, inputs, i).value;
    var t: nat :| Describes(cfg, inputs, t, i, p);
    LiveUnique(cfg, inputs, s, t, i);
    assert ConfirmedIn(inputs, s, i);
  }

  /** A request whose execution completed is not executed again; an OpenVPN request is not even tried twice. */
  lemma AtMostOncePerRequest(cfg: Config, inputs: seq<Input>, s: nat, c: nat, i: nat, d: nat, j: nat)
    requires Clocked(inputs) && i < j < |inputs|
    requires Authorised(cfg, inputs, s, c, i)
    requires cfg.kind.PfSense? ==> inputs[i].message.completes
    ensures !Authorised(cfg, inputs, s, d, j)
  {
    hide Trim;
    AlwaysExplained(cfg, inputs, i);
    AuthorisedExecutes(cfg, inputs, s, c, i);
    assert Ends(cfg, inputs, i);
  }

  /** Message `j` enters the code of the request that `s` started, within its time. */
  predicate EntersCode(cfg: Config, inputs: seq<Input>, s: nat, j: nat)
    requires s < j < |inputs| && inputs[s].message.Start?
  {
    && inputs[j].message.Apply? && Trim(inputs[j].message.entered) == inputs[s].message.code
    && inputs[j].handled - inputs[s].handled <= cfg.ttl
  }

  /** After an execution of a request, entering its code again in time, with nothing that ends the request in
      between, executes it again exactly when it was a pfSense change whose executor raised. What is executed again is
      the same text. */
  lemma ExecutedAgainIff(cfg: Config, inputs: seq<Input>, s: nat, c: nat, i: nat, j: nat)
    requires Clocked(inputs) && i < j < |inputs| && Authorised(cfg, inputs, s, c, i)
    requires EntersCode(cfg, inputs, s, j) && forall k :: i < k < j ==> !Ends(cfg, inputs, k)
    ensures ExecutedAt(cfg, inputs, j).Some? <==> cfg.kind.PfSense? && !inputs[i].message.completes
    ensures ExecutedAt(cfg, inputs, j).Some? ==> ExecutedAt(cfg, inputs, j) == Some(Trim(inputs[s].message.text))
  {
    hide ExecutedAt, PendingAt, Trim;
    ExecutedIffAuthorised(cfg, inputs, i);
    ExecutedIffAuthorised(cfg, inputs, j);
    assert Ends(cfg, inputs, i) <==> Closes(cfg, inputs[i].message);
    if Closes(cfg, inputs[i].message) {
      EndedBefore(cfg, inputs, i, j);
    } else {
      assert Authorised(cfg, inputs, s, c, j);
    }
  }

  /** After a message that starts a request, that request is pending, whatever was before; an OpenVPN request without
      a name is not one, and no such request is ever executed. */
  lemma StartReplaces(cfg: Config, inputs: seq<Input>, i: nat)
    requires Clocked(inputs) && i < |inputs|
    ensures inputs[i].message.Start? && (cfg.kind.PfSense? || Trim(inputs[i].message.text) != "") ==>
      PendingAt(cfg, inputs, i + 1) == Some(
        Pending(inputs[i].handled, Trim(inputs[i].message.text), AwaitingFirst, inputs[i].message.code, 0))
    ensures cfg.kind.OpenVpn? ==> ExecutedAt(cfg, inputs, i) != Some("")
  {
    hide Trim;
    ExecutedIffAuthorised(cfg, inputs, i);
    if ExecutedAt(cfg, inputs, i).Some? {
      var s: nat, c: nat :| Authorised(cfg, inputs, s, c, i);
    }
  }

  /** A request that is over its time when a message arrives is gone after that message, whatever it says. */
  lemma StaleIsDropped(cfg: Config, inputs: seq<Input>, i: nat)
    requires Clocked(inputs) && i < |inputs| && PendingAt(cfg, inputs, i).Some?
    requires inputs[i].arrived - PendingAt(cfg, inputs, i).value.created > cfg.ttl
    ensures PendingAt(cfg, inputs, i + 1).Some? ==> inputs[i].message.Start? && PendingAt(cfg, inputs, i + 1) == Some(
      Pending(inputs[i].handled, Trim(inputs[i].message.text), AwaitingFirst, inputs[i].message.code, 0))
    ensures ExecutedAt(cfg, inputs, i).None?
  {
    hide Trim;
  }

  /** With the last request ended and none started since, nothing is authorised. */
  lemma EndedBefore(cfg: Config, inputs: seq<Input>, i: nat, j: nat)
    requires i < j < |inputs| && Ends(cfg, inputs, i) && inputs[i].message.Apply?
    requires forall k :: i < k < j ==> !Ends(cfg, inputs, k)
    ensures !IsAuthorised(cfg, inputs, j)
  {
    hide ExecutedAt, PendingAt, Trim, Closes;
    forall s: nat, c: nat
      ensures !Authorised(cfg, inputs, s, c, j)
    {
      if s < j && Starts(cfg, inputs[s].message) {
        assert Ends(cfg, inputs, s);
      }
    }
  }

  /** A pfSense executor that raises leaves the request in place: the same code applies it once more. */
  lemma RaisedPfSenseIsRetriable(ttl: int)
    requires ttl >= 0
    ensures var cfg := Config(PfSense, ttl);
      var inputs := [Input(1, 1, Start("open port", "123456")), Input(1, 1, Confirm),
                     Input(1, 1, Apply("123456", false)), Input(1, 1, Apply("123456", true))];
      ExecutedAt(cfg, inputs, 2) == ExecutedAt(cfg, inputs, 3) == Some(Trim("open port"))
  {
    hide Trim;
    var cfg := Config(PfSense, ttl);
    var inputs := [Input(1, 1, Start("open port", "123456")), Input(1, 1, Confirm),
                   Input(1, 1, Apply("123456", false)), Input(1, 1, Apply("123456", true))];
    TrimCode();
    var p := Pending(1, Trim("open port"), AwaitingSecond, "123456", 1);
    assert PendingAt(cfg, inputs, 1) == Some(Pending(1, Trim("open port"), AwaitingFirst, "123456", 0));
    assert PendingAt(cfg, inputs, 2) == Some(p);
    assert PendingAt(cfg, inputs, 3) == Some(p);
  }

  lemma TrimCode()
    ensures Trim("123456") == "123456"
  {
    TrimKeepsTrimmed("123456");
  }
}
