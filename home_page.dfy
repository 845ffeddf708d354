/**
 * The handlers of the home page that sit between the generator form, the quota and the
 * passcode dialog. A request either goes straight to generation, charged first, or, when
 * the quota is used up and the page is not unlocked, is parked in `pending` while the passcode
 * dialog is open; the dialog's outcome replays or discards it.
 *
 * The generation service and the gallery are outside the model: the page records, in
 * `effects`, that it charged the quota, called generate and called addPage, in that order,
 * and the parameter `generated` says whether generate answered with a result.
 */
module Home {
  import opened JsText
  import opened RateLimit
  import opened Passcode

  datatype Option<T> = None | Some(value: T)

  /** An outside effect the page triggers: recordGeneration, generate(description) or
      addPage(description, result). */
  datatype Effect = Charged | Generated(description: string) | PageAdded(description: string)

  /** What the badge above the form shows. */
  datatype Badge = UnlimitedAccess | FreeLeft(count: nat)

  /** JavaScript truthiness of pendingDescription: neither null nor the empty string. */
  predicate HasPending(pending: Option<string>): (b: bool)
    ensures b <==> pending != None && pending != Some("")
  {
    pending.Some? && pending.value != ""
  }

  /** The effects of doGenerate(description), when generate answers with a result exactly if
      `generated`: the charge comes first and is made whatever generate answers; the gallery
      gets the page only when there is a result. */
  function GenerationEffects(description: string, generated: bool): (t: seq<Effect>)
    ensures |t| == if generated then 3 else 2
    ensures t[0] == Charged && t[1] == Generated(description)
    ensures PageAdded(description) in t <==> generated
  {
    [Charged, Generated(description)] + if generated then [PageAdded(description)] else []
  }

  /** `next` may come right after `prev`: a generate call only after a charge, and an
      addPage only after the generate call for the same description. */
  predicate MayFollow(prev: Effect, next: Effect) {
    (next.Generated? ==> prev == Charged)
    && (next.PageAdded? ==> prev == Generated(next.description))
  }

  /** Every generate call comes right after a charge, and every addPage right after the
      generate call for the same description. */
  predicate ChargedFirst(log: seq<Effect>) {
    (log != [] ==> log[0] == Charged)
    && forall i :: 0 < i < |log| ==> MayFollow(log[i - 1], log[i])
  }

  function Charges(log: seq<Effect>): nat {
    if log == [] then 0 else (if log[0] == Charged then 1 else 0) + Charges(log[1..])
  }

  function Generations(log: seq<Effect>): nat {
    if log == [] then 0 else (if log[0].Generated? then 1 else 0) + Generations(log[1..])
  }

  lemma {:induction false} TallyAppend(a: seq<Effect>, b: seq<Effect>)
    ensures Charges(a + b) == Charges(a) + Charges(b)
    ensures Generations(a + b) == Generations(a) + Generations(b)
  {
    if a == [] {
      assert a + b == b;
    } else {
      assert (a + b)[1..] == a[1..] + b;
      TallyAppend(a[1..], b);
    }
  }

  /** The quota is charged exactly once per generation, and before it. */
  ghost predicate ChargedOncePerGeneration(log: seq<Effect>) {
    ChargedFirst(log) && Charges(log) == Generations(log)
  }

  /** Running doGenerate keeps every generation charged once and beforehand. */
  lemma GenerationKeepsCharging(log: seq<Effect>, description: string, generated: bool)
    requires ChargedOncePerGeneration(log)
    ensures ChargedOncePerGeneration(log + GenerationEffects(description, generated))
  {
    var t := GenerationEffects(description, generated);
    TallyAppend(log, t);
    var tail := if generated then [PageAdded(description)] else [];
    assert t == [Charged] + ([Generated(description)] + tail);
    assert t[1..] == [Generated(description)] + tail && t[1..][1..] == tail;
    assert Charges(tail) == 0 && Generations(tail) == 0;
    var all := log + t;
    forall i | 0 < i < |all| ensures MayFollow(all[i - 1], all[i]) {
      if i < |log| {
        assert all[i - 1] == log[i - 1] && all[i] == log[i];
      } else if i == |log| {
        assert all[i] == t[0] == Charged;
      } else {
        var j := i - |log|;
        assert all[i] == t[j] && all[i - 1] == t[j - 1];
        assert j == 1 ==> t[j] == Generated(description);
        assert j == 2 ==> t[j] == PageAdded(description);
      }
    }
    assert all[0] == Charged by {
      if log == [] { assert all[0] == t[0]; } else { assert all[0] == log[0]; }
    }
  }

  /** The dialog trims what it hands on, so padding around the passcode still unlocks,
      although verifyPasscode on its own rejects the padded text. */
  lemma DialogTrimsPadding(left: string, right: string)
    requires WhiteSpaceBetween(left, 0, |left|) && WhiteSpaceBetween(right, 0, |right|)
    requires left != [] || right != []
    ensures Trim(left + PASSCODE + right) == PASSCODE
    ensures left + PASSCODE + right != PASSCODE
  {
    assert !IsWhiteSpace(PASSCODE[0]) && !IsWhiteSpace(PASSCODE[|PASSCODE| - 1]);
    TrimOfPadded(left, PASSCODE, right);
    assert |left + PASSCODE + right| > |PASSCODE|;
  }

  /** The home page's state: the quota hook it uses, whether the passcode dialog is open, the
      parked request, the description last sent to generation, and the effects so far. */
  class HomePage {
    const limiter: RateLimiter
    var showPasscode: bool
    var pending: Option<string>
    var lastDescription: string
    var effects: seq<Effect>

    ghost predicate Valid()
      reads this, limiter
    {
      limiter.Valid() && ChargedOncePerGeneration(effects)
    }

    /** The first render: the dialog closed and nothing parked. */
    constructor (limiter: RateLimiter)
      requires limiter.Valid()
      ensures Valid() && this.limiter == limiter
      ensures !showPasscode && pending == None && lastDescription == "" && effects == []
    {
      this.limiter := limiter;
      showPasscode := false;
      pending := None;
      lastDescription := "";
      effects := [];
    }

    /** The badge: "Unlimited access" exactly when the page is unlocked, otherwise the
        number of free generations left. */
    function Indicator(): (b: Badge)
      reads this, limiter
      ensures b == UnlimitedAccess <==> limiter.unlocked
      ensures !limiter.unlocked ==> b == FreeLeft(limiter.remaining)
    {
      if limiter.unlocked then UnlimitedAccess else FreeLeft(limiter.remaining)
    }

    /** doGenerate: remembers the description, charges the quota, then calls generate, and
        adds the page to the gallery only when generate gave a result. */
    method DoGenerate(description: string, today: string, generated: bool)
      requires Valid()
      modifies this`lastDescription, this`effects, limiter`store, limiter`remaining
      ensures Valid() && limiter.Synced(today)
      ensures lastDescription == description
      ensures limiter.store == Charge(old(limiter.store), today)
      ensures effects == old(effects) + GenerationEffects(description, generated)
    {
      GenerationKeepsCharging(effects, description, generated);
      lastDescription := description;
      limiter.RecordGeneration(today);
      effects := effects + [Charged];
      effects := effects + [Generated(description)];
      if generated {
        effects := effects + [PageAdded(description)];
      }
      assert effects == old(effects) + GenerationEffects(description, generated);
    }

    /** handleGenerate: with the quota used up and the page not unlocked, parks the request and
        opens the dialog, charging and generating nothing; otherwise generates at once and
        leaves the dialog state alone. */
    method HandleGenerate(description: string, today: string, generated: bool)
      requires Valid()
      modifies this`showPasscode, this`pending, this`lastDescription, this`effects
      modifies limiter`store, limiter`remaining
      ensures Valid()
      ensures !old(limiter.CanGenerate()) ==>
        pending == Some(description) && showPasscode
        && lastDescription == old(lastDescription) && effects == old(effects)
        && limiter.store == old(limiter.store) && limiter.remaining == old(limiter.remaining)
      ensures old(limiter.CanGenerate()) ==>
        pending == old(pending) && showPasscode == old(showPasscode)
        && lastDescription == description
        && effects == old(effects) + GenerationEffects(description, generated)
        && limiter.store == Charge(old(limiter.store), today) && limiter.Synced(today)
    {
      if !limiter.CanGenerate() {
        pending := Some(description);
        showPasscode := true;
        return;
      }
      DoGenerate(description, today, generated);
    }

    /** handlePasscodeClose: closes the dialog and drops the parked request, without
        charging or generating. */
    method HandlePasscodeClose()
      modifies this`showPasscode, this`pending
      ensures !showPasscode && pending == None
    {
      showPasscode := false;
      pending := None;
    }

    /** handlePasscodeVerify: answers exactly what verifyPasscode answers; on success with a
        parked request it closes the dialog, replays that very request (charging it) and
        drops it; otherwise the dialog state and the quota are as they were. */
    method HandlePasscodeVerify(code: string, today: string, generated: bool) returns (ok: bool)
      requires Valid()
      modifies this`showPasscode, this`pending, this`lastDescription, this`effects
      modifies limiter`store, limiter`remaining, limiter`unlocked
      ensures Valid()
      ensures ok <==> code == PASSCODE
      ensures limiter.unlocked == (old(limiter.unlocked) || ok)
      ensures ok && HasPending(old(pending)) ==>
        !showPasscode && pending == None
        && lastDescription == old(pending).value
        && effects == old(effects) + GenerationEffects(old(pending).value, generated)
        && limiter.store == Charge(old(limiter.store), today) && limiter.Synced(today)
      ensures !(ok && HasPending(old(pending))) ==>
        showPasscode == old(showPasscode) && pending == old(pending)
        && lastDescription == old(lastDescription) && effects == old(effects)
        && limiter.store == old(limiter.store) && limiter.remaining == old(limiter.remaining)
    {
      ok := limiter.VerifyPasscode(code);
      if ok && HasPending(pending) {
        showPasscode := false;
        DoGenerate(pending.value, today, generated);
        pending := None;
      }
    }
  }

  /** Submitting the open passcode dialog, wired as the page renders it (onVerify is
      handlePasscodeVerify, onClose is handlePasscodeClose): the trimmed input decides; on
      success the dialog closes with the parked request, if any, replayed once; on failure
      the dialog shows the error, empties its input and keeps the request parked. */
  method SubmitPasscode(page: HomePage, modal: PasscodeModal, today: string, generated: bool)
    returns (ok: bool)
    requires page.Valid() && page.showPasscode
    modifies page`showPasscode, page`pending, page`lastDescription, page`effects
    modifies page.limiter`store, page.limiter`remaining, page.limiter`unlocked, modal
    ensures page.Valid()
    ensures ok <==> Trim(old(modal.code)) == PASSCODE
    ensures page.limiter.unlocked == (old(page.limiter.unlocked) || ok)
    ensures ok ==>
      !page.showPasscode && page.pending == None
      && modal.code == old(modal.code) && modal.error == old(modal.error)
    ensures ok && HasPending(old(page.pending)) ==>
      page.lastDescription == old(page.pending).value
      && page.effects == old(page.effects) + GenerationEffects(old(page.pending).value, generated)
      && page.limiter.store == Charge(old(page.limiter.store), today) && page.limiter.Synced(today)
    ensures !(ok && HasPending(old(page.pending))) ==>
      page.lastDescription == old(page.lastDescription) && page.effects == old(page.effects)
      && page.limiter.store == old(page.limiter.store) && page.limiter.remaining == old(page.limiter.remaining)
    ensures !ok ==>
      modal.code == "" && modal.error
      && page.showPasscode && page.pending == old(page.pending)
      && page.limiter.CanGenerate() == old(page.limiter.CanGenerate())
  {
    ok := page.HandlePasscodeVerify(modal.Submitted(), today, generated);
    var close := modal.Submit(ok);
    if close {
      page.HandlePasscodeClose();
    }
  }

  /** A request made with the quota used up waits behind the dialog through a wrong passcode
      and is generated, charged, once the right one is entered. */
  method ParkedRequestScenario(today: string, description: string)
    requires description != ""
  {
    var limiter := new RateLimiter(Present(DailyRecord(today, 3)));
    limiter.Mount(today);
    var page := new HomePage(limiter);
    page.HandleGenerate(description, today, true);
    assert page.showPasscode && page.pending == Some(description) && page.effects == [];

    var modal := new PasscodeModal();
    modal.Edit("0000");
    var ok := SubmitPasscode(page, modal, today, true);
    assert !ok && modal.error && page.pending == Some(description);
    assert !limiter.CanGenerate() && page.effects == [];

    modal.Edit(" 1122 ");
    assert Trim(modal.code) == PASSCODE by {
      assert modal.code == " " + PASSCODE + " ";
      DialogTrimsPadding(" ", " ");
    }
    ok := SubmitPasscode(page, modal, today, false);
    assert ok && !page.showPasscode && page.pending == None;
    assert page.effects == [Charged, Generated(description)];
    assert limiter.store == Present(DailyRecord(today, 4));
  }
}
