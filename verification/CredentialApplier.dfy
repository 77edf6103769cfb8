/** The agent's credential applier: replaces the environment by the last pushed
    payload, ignoring command ids still inside a window of the last thousand. */
module CredentialApplier {
  import opened Wrappers
  import opened BoundedWindow
  import Decimal

  const MAX_APPLIED_COMMAND_IDS: nat := 1000

  datatype Payload = Payload(targetNode: string, envVars: map<string, string>, version: int)

  predicate IsSpace(c: char) {
    c in "\t\n\U{0B}\U{0C}\r \U{85}\U{A0}\U{1680}\U{2028}\U{2029}\U{202F}\U{205F}\U{3000}"
    || '\U{2000}' <= c <= '\U{200A}'
  }

  predicate IsBlank(s: string) {
    forall c :: c in s ==> IsSpace(c)
  }

  predicate WellFormed(p: Payload) {
    && !IsBlank(p.targetNode)
    && p.envVars != map[]
    && (forall k :: k in p.envVars ==> p.envVars[k] != "")
  }

  predicate Acceptable(p: Payload) {
    WellFormed(p) && p.version >= 0
  }

  datatype Push = Push(commandId: string, payload: Payload)

  /** The applier's whole state as a value; `window` lists the remembered command ids, oldest first. */
  datatype Applied = Applied(envVars: map<string, string>, version: int, window: seq<string>)

  const NothingApplied := Applied(map[], 0, [])

  predicate WillApply(s: Applied, push: Push) {
    Acceptable(push.payload) && (push.commandId == "" || push.commandId !in s.window)
  }

  function AfterPush(s: Applied, push: Push): Applied {
    if !WillApply(s, push) then s
    else
      Applied(push.payload.envVars, push.payload.version,
              if push.commandId == "" then s.window
              else Offer(s.window, push.commandId, MAX_APPLIED_COMMAND_IDS))
  }

  function AfterPushes(pushes: seq<Push>): Applied {
    if pushes == [] then NothingApplied
    else AfterPush(AfterPushes(pushes[..|pushes| - 1]), pushes[|pushes| - 1])
  }

  /** The pushes of a run that were applied, in order. */
  ghost function AppliedPushes(pushes: seq<Push>): seq<Push> {
    if pushes == [] then []
    else
      var before, push := pushes[..|pushes| - 1], pushes[|pushes| - 1];
      AppliedPushes(before) + (if WillApply(AfterPushes(before), push) then [push] else [])
  }

  /** The command ids that reach the window, in order: those of acceptable pushes that carry one. */
  ghost function OfferedIds(pushes: seq<Push>): seq<string> {
    if pushes == [] then []
    else
      var push := pushes[|pushes| - 1];
      OfferedIds(pushes[..|pushes| - 1])
      + (if Acceptable(push.payload) && push.commandId != "" then [push.commandId] else [])
  }

  /** Over every run: the environment and version are those of the last applied
      payload, and the remembered ids are the bounded window of the offered ones. */
  lemma {:induction false} RunKeepsLastApplied(pushes: seq<Push>)
    ensures var s, applied := AfterPushes(pushes), AppliedPushes(pushes);
            && (applied == [] ==> s.envVars == map[] && s.version == 0)
            && (applied != [] ==> var p := applied[|applied| - 1].payload;
                                  s.envVars == p.envVars && s.version == p.version)
            && s.window == Offers(OfferedIds(pushes), MAX_APPLIED_COMMAND_IDS)
  {
    if pushes != [] {
      var before, push := pushes[..|pushes| - 1], pushes[|pushes| - 1];
      RunKeepsLastApplied(before);
      var ids := OfferedIds(before);
      if Acceptable(push.payload) && push.commandId != "" {
        assert (ids + [push.commandId])[..|ids|] == ids;
      } else {
        assert ids + [] == ids;
      }
    }
  }

  /** A repeated command id is ignored exactly while fewer than a thousand other ids were
      admitted after it; past that, an old push is applied again over a newer one. */
  lemma RepeatIgnoredIffRecent(pushes: seq<Push>, push: Push)
    requires Acceptable(push.payload) && push.commandId != ""
    ensures var h := Admitted(OfferedIds(pushes), MAX_APPLIED_COMMAND_IDS);
            WillApply(AfterPushes(pushes), push) <==>
            !exists i :: 0 <= i < |h| && h[i] == push.commandId && |h| - 1 - i < MAX_APPLIED_COMMAND_IDS
  {
    RunKeepsLastApplied(pushes);
    DuplicateIffRecent(OfferedIds(pushes), MAX_APPLIED_COMMAND_IDS, push.commandId);
  }

  /** What the payload check asks for, spelled out. */
  lemma AcceptableIff(p: Payload)
    ensures Acceptable(p) <==>
            && (exists i :: 0 <= i < |p.targetNode| && !IsSpace(p.targetNode[i]))
            && (exists k :: k in p.envVars) && (forall k :: k in p.envVars ==> |p.envVars[k]| > 0)
            && p.version > -1
  {
    if p.envVars != map[] {
      assert exists k :: k in p.envVars;
    }
    assert forall i :: 0 <= i < |p.targetNode| ==> p.targetNode[i] in p.targetNode;
  }

  /** After any run, an acceptable push without a command id is always applied, however often it comes, and is not
      remembered; a payload that is not acceptable never changes anything. */
  lemma UnidentifiedAlwaysApplied(pushes: seq<Push>, push: Push)
    ensures var (s, t) := (AfterPushes(pushes), AfterPushes(pushes + [push]));
            && (!Acceptable(push.payload) ==> t == s)
            && (Acceptable(push.payload) && push.commandId == "" ==>
                  t.envVars == push.payload.envVars && t.version == push.payload.version && t.window == s.window)
            && (Acceptable(push.payload) && push.commandId != "" ==>
                  if push.commandId in s.window then t == s
                  else t.envVars == push.payload.envVars && t.version == push.payload.version
                       && |t.window| > 0 && t.window[|t.window| - 1] == push.commandId)
  {
    assert (pushes + [push])[..|pushes|] == pushes;
  }

  /** The i-th push of a run of distinct command ids with rising versions. */
  function NumberedPush(i: nat): Push {
    Push(Decimal.Digits(i), Payload("node", map["KEY" := "value"], i))
  }

  function NumberedPushes(n: nat): seq<Push> {
    if n == 0 then [] else NumberedPushes(n - 1) + [NumberedPush(n - 1)]
  }

  function NumberedIds(n: nat): seq<string> {
    if n == 0 then [] else NumberedIds(n - 1) + [Decimal.Digits(n - 1)]
  }

  lemma {:induction false} IdsAreNumbered(n: nat)
    ensures |NumberedIds(n)| == n && forall i :: 0 <= i < n ==> NumberedIds(n)[i] == Decimal.Digits(i)
  {
    if n > 0 {
      IdsAreNumbered(n - 1);
    }
  }

  lemma NumberedIsNew(n: nat)
    ensures Decimal.Digits(n) !in NumberedIds(n)
  {
    IdsAreNumbered(n);
    forall i | 0 <= i < n
      ensures NumberedIds(n)[i] != Decimal.Digits(n)
    {
      Decimal.ValueOfDigits(i);
      Decimal.ValueOfDigits(n);
    }
  }

  lemma NumberedIsOrdinary(n: nat)
    ensures Acceptable(NumberedPush(n).payload) && NumberedPush(n).commandId != ""
  {
    assert NumberedPush(n).payload.targetNode[0] == 'n' && 'n' in NumberedPush(n).payload.targetNode;
    assert "KEY" in NumberedPush(n).payload.envVars;
  }

  /** Every numbered push is offered. */
  lemma {:induction false} NumberedOffered(n: nat)
    ensures OfferedIds(NumberedPushes(n)) == NumberedIds(n)
  {
    if n > 0 {
      NumberedOffered(n - 1);
      NumberedIsOrdinary(n - 1);
      var before, push := NumberedPushes(n - 1), NumberedPush(n - 1);
      assert (before + [push])[..|before|] == before;
    }
  }

  /** And every one is admitted. */
  lemma {:induction false} NumberedAdmitted(n: nat)
    ensures Admitted(NumberedIds(n), MAX_APPLIED_COMMAND_IDS) == NumberedIds(n)
  {
    if n > 0 {
      NumberedAdmitted(n - 1);
      NumberedIsNew(n - 1);
      var ids := NumberedIds(n - 1);
      InOffers(ids, Decimal.Digits(n - 1));
      assert (ids + [Decimal.Digits(n - 1)])[..|ids|] == ids;
    }
  }

  /** And applied. */
  lemma NumberedApplied(n: nat)
    ensures AfterPushes(NumberedPushes(n + 1)).version == n
  {
    var before, push := NumberedPushes(n), NumberedPush(n);
    NumberedIsOrdinary(n);
    NumberedIsNew(n);
    NumberedOffered(n);
    RunKeepsLastApplied(before);
    InOffers(NumberedIds(n), push.commandId);
    assert (before + [push])[..|before|] == before;
  }

  /** What is in the window was offered. */
  lemma {:induction false} InOffers(ids: seq<string>, id: string)
    ensures id in Offers(ids, MAX_APPLIED_COMMAND_IDS) ==> id in ids
  {
    if ids != [] {
      InOffers(ids[..|ids| - 1], id);
      assert ids == ids[..|ids| - 1] + [ids[|ids| - 1]];
    }
  }

  /** After 1001 pushes the first one, repeated, is applied again over the newest. */
  lemma OldPushAppliedAgain()
    ensures var (pushes, first) := (NumberedPushes(1001), NumberedPush(0));
            && first in pushes && WillApply(AfterPushes(pushes), first)
            && AfterPushes(pushes).version == 1000 && AfterPush(AfterPushes(pushes), first).version == 0
  {
    NumberedApplied(1000);
    NumberedIsOrdinary(0);
    FirstIsThere(1001);
    FirstIsForgotten(1001);
  }

  /** Once a thousand others came after it, the first push would be applied again. */
  lemma FirstIsForgotten(n: nat)
    requires n > MAX_APPLIED_COMMAND_IDS
    ensures WillApply(AfterPushes(NumberedPushes(n)), NumberedPush(0))
  {
    NumberedIsOrdinary(0);
    NumberedOffered(n);
    NumberedAdmitted(n);
    RepeatIgnoredIffRecent(NumberedPushes(n), NumberedPush(0));
    OnlyFirstIsFirst(n);
  }

  lemma OnlyFirstIsFirst(n: nat)
    ensures |NumberedIds(n)| == n && forall i :: 0 < i < n ==> NumberedIds(n)[i] != Decimal.Digits(0)
  {
    IdsAreNumbered(n);
    forall i | 0 < i < n
      ensures NumberedIds(n)[i] != Decimal.Digits(0)
    {
      Decimal.ValueOfDigits(i);
      Decimal.ValueOfDigits(0);
    }
  }

  lemma {:induction false} FirstIsThere(n: nat)
    requires n > 0
    ensures NumberedPush(0) in NumberedPushes(n)
  {
    if n > 1 {
      FirstIsThere(n - 1);
    }
  }

  class CredentialApplier {
    var envVars: map<string, string>
    var version: int
    var appliedCommandIDs: set<string>
    var appliedCommandOrder: seq<string>

    /** Set and order list hold the same ids, each once, never more than the maximum. */
    ghost predicate Valid()
      reads this
    {
      && appliedCommandIDs == (set id | id in appliedCommandOrder)
      && NoRepeats(appliedCommandOrder)
      && |appliedCommandOrder| <= MAX_APPLIED_COMMAND_IDS
    }

    ghost function State(): Applied
      reads this
    {
      Applied(envVars, version, appliedCommandOrder)
    }

    constructor ()
      ensures Valid() && State() == NothingApplied
    {
      envVars, version, appliedCommandIDs, appliedCommandOrder := map[], 0, {}, [];
    }

    method ApplyIfNew(commandID: string, payload: Payload) returns (r: Result<bool, string>)
      requires Valid()
      modifies this
      ensures Valid() && State() == old(AfterPush(State(), Push(commandID, payload)))
      ensures r.Err? <==> !Acceptable(payload)
      ensures r.Ok? ==> r.value == old(WillApply(State(), Push(commandID, payload)))
    {
      var valid := Validate(payload);
      if !valid {
        return Err("validation error");
      }
      if payload.version < 0 {
        return Err("validation error: credential_push.version must be >= 0");
      }
      if commandID != "" && commandID in appliedCommandIDs {
        return Ok(false);
      }
      ApplyLocked(payload);
      if commandID != "" {
        RememberCommandIDLocked(commandID);
      }
      return Ok(true);
    }

    method ApplyLocked(payload: Payload)
      modifies this`envVars, this`version
      ensures envVars == payload.envVars && version == payload.version
    {
      var envCopy: map<string, string> := map[];
      var keys := payload.envVars.Keys;
      while keys != {}
        invariant keys <= payload.envVars.Keys
        invariant envCopy == map k | k in payload.envVars && k !in keys :: payload.envVars[k]
      {
        var key :| key in keys;
        envCopy := envCopy[key := payload.envVars[key]];
        keys := keys - {key};
      }
      assert envCopy == payload.envVars;
      envVars := envCopy;
      version := payload.version;
    }

    method RememberCommandIDLocked(commandID: string)
      requires Valid() && commandID !in appliedCommandIDs
      modifies this`appliedCommandIDs, this`appliedCommandOrder
      ensures Valid()
      ensures appliedCommandOrder == old(Offer(appliedCommandOrder, commandID, MAX_APPLIED_COMMAND_IDS))
    {
      ghost var before := appliedCommandOrder;
      OfferEvictsOldest(before, commandID, MAX_APPLIED_COMMAND_IDS);
      appliedCommandIDs := appliedCommandIDs + {commandID};
      appliedCommandOrder := appliedCommandOrder + [commandID];
      if |appliedCommandOrder| <= MAX_APPLIED_COMMAND_IDS {
        return;
      }
      var evictedID := appliedCommandOrder[0];
      ghost var longer := appliedCommandOrder;
      appliedCommandOrder := appliedCommandOrder[1..];
      appliedCommandIDs := appliedCommandIDs - {evictedID};
      assert longer == [evictedID] + appliedCommandOrder;
      assert evictedID !in appliedCommandOrder;
    }
  }

  method Validate(payload: Payload) returns (valid: bool)
    ensures valid == WellFormed(payload)
  {
    if IsBlank(payload.targetNode) || payload.envVars == map[] {
      return false;
    }
    var keys := payload.envVars.Keys;
    while keys != {}
      invariant keys <= payload.envVars.Keys
      invariant forall k :: k in payload.envVars && k !in keys ==> payload.envVars[k] != ""
    {
      var key :| key in keys;
      if payload.envVars[key] == "" {
        return false;
      }
      keys := keys - {key};
    }
    return true;
  }
}
