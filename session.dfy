/** The per-user session (`st.session_state`): the password gate
    (`check_password` and its callback `password_entered`), the
    initialisation of the session keys (`init_session_state`) and the
    "start again" action (`reset_app`).  The session is a map from key to a
    Python value; the configured secrets are a map from name to a Python value. */
module Session {

  /** The Python values the session holds, as far as the gate and reset
      look at them; `Object` stands for any other value Python counts as
      true (a non-empty dict or list). */
  datatype Value = Bool(b: bool) | Int(i: int) | Str(s: string) | EmptyList | Object(id: int)

  /** Python truthiness. */
  predicate Truthy(v: Value)
  {
    match v
    case Bool(b) => b
    case Int(i) => i != 0
    case Str(s) => s != ""
    case EmptyList => false
    case Object(_) => true
  }

  /** Python's `==` on these values: a bool and an int compare as numbers
      (`True == 1`), other kinds compare only with their own kind. */
  predicate PyEq(a: Value, b: Value)
  {
    match (a, b)
    case (Str(x), Str(y)) => x == y
    case (EmptyList, EmptyList) => true
    case (Object(i), Object(j)) => i == j
    case _ => (a.Bool? || a.Int?) && (b.Bool? || b.Int?) && AsNumber(a) == AsNumber(b)
  }

  function AsNumber(v: Value): int
  {
    match v
    case Bool(b) => if b then 1 else 0
    case Int(i) => i
    case _ => 0
  }

  type State = map<string, Value>
  /** The configured secrets: a TOML value per name, so not always a string. */
  type Secrets = map<string, Value>

  const PasswordKey: string := "password"
  const AuthKey: string := "password_correct"
  const SecretKey: string := "APP_PASSWORD"
  const ResultKey: string := "current_result"
  const ResetKey: string := "reset_key"
  const HistoryKey: string := "history"

  /** An exception a step raises, if any. */
  datatype Fault = NoFault | KeyError(key: string) | AttributeError(name: string) | TypeError

  /** The session after a step, and what the step raised. */
  datatype Step = Step(state: State, fault: Fault)

  // ---------------------------------------------------------------------
  // The gate
  // ---------------------------------------------------------------------

  /** What `check_password` decides: a configuration error (no secret), access,
      or the password prompt, with the "wrong password" message or not. */
  datatype Gate = ConfigError | Granted | Prompt(wrongPassword: bool)

  function GateView(s: State, secrets: Secrets): Gate
  {
    if SecretKey !in secrets then ConfigError
    else if AuthKey in s && Truthy(s[AuthKey]) then Granted
    else Prompt(AuthKey in s && !Truthy(s[AuthKey]))
  }

  /** The password widget storing what the user typed under "password". */
  function TypePassword(s: State, pw: string): State
  {
    s[PasswordKey := Str(pw)]
  }

  /** `password_entered`: compares the typed password with the secret; on a
      match it records success and forgets the password, otherwise it
      records failure.  Reading a missing key raises KeyError, first the
      session's "password", then the secret. */
  function EnterPassword(s: State, secrets: Secrets): Step
  {
    if PasswordKey !in s then Step(s, KeyError(PasswordKey))
    else if SecretKey !in secrets then Step(s, KeyError(SecretKey))
    else if PyEq(s[PasswordKey], secrets[SecretKey]) then
      Step(s[AuthKey := Bool(true)] - {PasswordKey}, NoFault)
    else
      Step(s[AuthKey := Bool(false)], NoFault)
  }

  // ---------------------------------------------------------------------
  // Initialisation and reset
  // ---------------------------------------------------------------------

  /** `init_session_state`: an empty history and a reset counter of 0,
      each only when the key is not there yet. */
  function Initialize(s: State): State
  {
    var s1 := if HistoryKey !in s then s[HistoryKey := EmptyList] else s;
    if ResetKey !in s1 then s1[ResetKey := Int(0)] else s1
  }

  /** `reset_app`: drops the current result (if any), then adds 1 to the
      reset counter.  The drop happens even when the increment raises:
      AttributeError for a missing counter, TypeError for a value `+ 1`
      does not apply to (a bool counts as 0 or 1, as in Python). */
  function Reset(s: State): Step
  {
    var s1 := s - {ResultKey};
    if ResetKey !in s1 then Step(s1, AttributeError(ResetKey))
    else match s1[ResetKey]
      case Int(k) => Step(s1[ResetKey := Int(k + 1)], NoFault)
      case Bool(b) => Step(s1[ResetKey := Int((if b then 1 else 0) + 1)], NoFault)
      case _ => Step(s1, TypeError)
  }

  class SessionState {
    var entries: State

    constructor (initial: State)
      ensures entries == initial
    {
      entries := initial;
    }

    /** `init_session_state` */
    method InitSessionState()
      modifies this
      ensures entries == Initialize(old(entries))
      ensures forall k :: k in old(entries) ==> k in entries && entries[k] == old(entries)[k]
    {
      if HistoryKey !in entries {
        entries := entries[HistoryKey := EmptyList];
      }
      if ResetKey !in entries {
        entries := entries[ResetKey := Int(0)];
      }
    }

    /** `password_entered` */
    method PasswordEntered(secrets: Secrets) returns (fault: Fault)
      modifies this
      ensures Step(entries, fault) == EnterPassword(old(entries), secrets)
    {
      if PasswordKey !in entries {
        return KeyError(PasswordKey);
      }
      if SecretKey !in secrets {
        return KeyError(SecretKey);
      }
      if PyEq(entries[PasswordKey], secrets[SecretKey]) {
        entries := entries[AuthKey := Bool(true)];
        entries := entries - {PasswordKey};
      } else {
        entries := entries[AuthKey := Bool(false)];
      }
      fault := NoFault;
    }

    /** `reset_app` */
    method ResetApp() returns (fault: Fault)
      modifies this
      ensures Step(entries, fault) == Reset(old(entries))
    {
      entries := entries - {ResultKey};
      if ResetKey !in entries {
        return AttributeError(ResetKey);
      }
      match entries[ResetKey] {
        case Int(k) =>
          entries := entries[ResetKey := Int(k + 1)];
        case Bool(b) =>
          entries := entries[ResetKey := Int((if b then 1 else 0) + 1)];
        case _ =>
          return TypeError;
      }
      fault := NoFault;
    }

    /** `check_password`: whether the rest of the page may be shown, and
        which of the gate's screens is shown otherwise. */
    method CheckPassword(secrets: Secrets) returns (granted: bool, view: Gate)
      ensures granted <==> SecretKey in secrets && AuthKey in entries && Truthy(entries[AuthKey])
      ensures view == GateView(entries, secrets)
    {
      if SecretKey !in secrets {
        return false, ConfigError;
      }
      if AuthKey in entries && Truthy(entries[AuthKey]) {
        return true, Granted;
      }
      granted := false;
      view := Prompt(AuthKey in entries && !Truthy(entries[AuthKey]));
    }
  }

  // ---------------------------------------------------------------------
  // Properties of the gate
  // ---------------------------------------------------------------------

  /** Without a configured secret the gate is closed whatever the session
      holds, and submitting a password changes nothing. */
  lemma MissingSecretFailsClosed(s: State, secrets: Secrets)
    requires SecretKey !in secrets
    ensures GateView(s, secrets) == ConfigError
    ensures EnterPassword(s, secrets).state == s && EnterPassword(s, secrets).fault.KeyError?
  {
  }

  /** Submitting the right password opens the gate, forgets the typed
      password and changes nothing else. */
  lemma CorrectPasswordGrants(s: State, secrets: Secrets, pw: string)
    requires SecretKey in secrets && secrets[SecretKey] == Str(pw)
    ensures var step := EnterPassword(TypePassword(s, pw), secrets);
      && step.fault == NoFault
      && step.state == (s - {PasswordKey})[AuthKey := Bool(true)]
      && GateView(step.state, secrets) == Granted
  {
    var step := EnterPassword(TypePassword(s, pw), secrets);
    assert step.state == (s - {PasswordKey})[AuthKey := Bool(true)];
  }

  /** Submitting a wrong password keeps the gate closed and shows the
      "wrong password" message. */
  lemma WrongPasswordPrompts(s: State, secrets: Secrets, pw: string)
    requires SecretKey in secrets && secrets[SecretKey] != Str(pw)
    ensures var step := EnterPassword(TypePassword(s, pw), secrets);
      && step.fault == NoFault
      && step.state == s[PasswordKey := Str(pw)][AuthKey := Bool(false)]
      && GateView(step.state, secrets) == Prompt(true)
  {
  }

  /** Submitting the right password again leaves the session as the first
      submission left it. */
  lemma CorrectEntryIdempotent(s: State, secrets: Secrets, pw: string)
    requires SecretKey in secrets && secrets[SecretKey] == Str(pw)
    ensures var once := EnterPassword(TypePassword(s, pw), secrets).state;
      EnterPassword(TypePassword(once, pw), secrets) == Step(once, NoFault)
  {
    CorrectPasswordGrants(s, secrets, pw);
    var once := EnterPassword(TypePassword(s, pw), secrets).state;
    CorrectPasswordGrants(once, secrets, pw);
    assert (once - {PasswordKey})[AuthKey := Bool(true)] == once;
  }

  /** A secret configured as a number (or any other non-string value)
      never equals a typed password, so the gate can never be opened. */
  lemma NonStringSecretNeverMatches(s: State, secrets: Secrets, pw: string)
    requires SecretKey in secrets && !secrets[SecretKey].Str?
    ensures var step := EnterPassword(TypePassword(s, pw), secrets);
      && step.fault == NoFault
      && step.state[AuthKey] == Bool(false)
      && GateView(step.state, secrets) == Prompt(true)
  {
  }

  /** A user action on the session. */
  datatype Action = Type(pw: string) | Submit | StartOver | Init

  function Apply(s: State, secrets: Secrets, a: Action): State
  {
    match a
    case Type(pw) => TypePassword(s, pw)
    case Submit => EnterPassword(s, secrets).state
    case StartOver => Reset(s).state
    case Init => Initialize(s)
  }

  function Run(s: State, secrets: Secrets, actions: seq<Action>): State
    decreases |actions|
  {
    if actions == [] then s else Run(Apply(s, secrets, actions[0]), secrets, actions[1..])
  }

  /** The gate is shut and the stored password, if any, is not the secret. */
  ghost predicate Locked(s: State, secret: Value)
  {
    && !(AuthKey in s && Truthy(s[AuthKey]))
    && (PasswordKey in s ==> !PyEq(s[PasswordKey], secret))
  }

  lemma {:induction false} ApplyKeepsLocked(s: State, secrets: Secrets, a: Action)
    requires SecretKey in secrets && Locked(s, secrets[SecretKey])
    requires a.Type? ==> !PyEq(Str(a.pw), secrets[SecretKey])
    ensures Locked(Apply(s, secrets, a), secrets[SecretKey])
  {
    assert PasswordKey != AuthKey && ResultKey != AuthKey && ResetKey != AuthKey && HistoryKey != AuthKey;
    assert ResultKey != PasswordKey && ResetKey != PasswordKey && HistoryKey != PasswordKey;
  }

  /** No sequence of typing, submitting, resetting and initialising opens
      the gate of a locked session unless the secret itself is typed. */
  lemma {:induction false} NoAccessWithoutSecret(s: State, secrets: Secrets, actions: seq<Action>)
    requires SecretKey in secrets && Locked(s, secrets[SecretKey])
    requires forall i :: 0 <= i < |actions| && actions[i].Type? ==> !PyEq(Str(actions[i].pw), secrets[SecretKey])
    ensures GateView(Run(s, secrets, actions), secrets) != Granted
    decreases |actions|
  {
    if actions == [] {
    } else {
      ApplyKeepsLocked(s, secrets, actions[0]);
      NoAccessWithoutSecret(Apply(s, secrets, actions[0]), secrets, actions[1..]);
    }
  }

  // ---------------------------------------------------------------------
  // Properties of reset
  // ---------------------------------------------------------------------

  /** With an integer counter, reset raises nothing, drops the current
      result, adds exactly 1 to the counter, keeps every other key, and so
      leaves the gate as it was. */
  lemma ResetBumpsCounter(s: State, secrets: Secrets)
    requires ResetKey in s && s[ResetKey].Int?
    ensures var step := Reset(s);
      && step.fault == NoFault
      && ResultKey !in step.state
      && step.state[ResetKey] == Int(s[ResetKey].i + 1)
      && (forall k :: k in s && k != ResultKey && k != ResetKey ==> k in step.state && step.state[k] == s[k])
      && step.state.Keys == s.Keys - {ResultKey}
      && GateView(step.state, secrets) == GateView(s, secrets)
  {
    assert AuthKey != ResultKey && AuthKey != ResetKey;
  }

  function ResetTimes(s: State, n: nat): State
  {
    if n == 0 then s else Reset(ResetTimes(s, n - 1)).state
  }

  /** After initialisation, `n` resets raise the counter by exactly `n`
      and leave no current result behind. */
  lemma {:induction false} InitThenResets(s: State, n: nat)
    requires ResetKey in s ==> s[ResetKey].Int?
    ensures var start := Initialize(s)[ResetKey].i;
      && ResetKey in ResetTimes(Initialize(s), n)
      && ResetTimes(Initialize(s), n)[ResetKey] == Int(start + n)
      && (n > 0 ==> ResultKey !in ResetTimes(Initialize(s), n))
  {
    if n > 0 {
      InitThenResets(s, n - 1);
    }
  }
}
