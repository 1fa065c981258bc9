/**
 * _benchbox_pytest_xdist_safety.py: capping the worker count in pytest's argument list
 * (`_rewrite_numprocesses_args`) and reading it back (`_last_option_value`).
 */
module XdistArgs {
  import opened Wrappers
  import opened RepoPaths

  const LONG: string := "--numprocesses"
  const SHORT: string := "-n"

  // ---- decimal numbers ----

  predicate IsDigit(c: char) {
    '0' <= c <= '9'
  }

  function DigitValue(c: char): nat
    requires IsDigit(c)
  {
    (c - '0') as nat
  }

  /** Digits, with single underscores between them. */
  function ParseDigits(s: string): Option<nat> {
    if s == "" || !IsDigit(s[|s| - 1]) then None
    else if |s| == 1 then Some(DigitValue(s[0]))
    else
      var init := if s[|s| - 2] == '_' then s[..|s| - 2] else s[..|s| - 1];
      match ParseDigits(init)
      case None => None
      case Some(n) => Some(10 * n + DigitValue(s[|s| - 1]))
  }

  /** Python's `int(text)`; None stands for ValueError. */
  function ParseInt(text: string): Option<int> {
    var s := Strip(text);
    if s != "" && (s[0] == '-' || s[0] == '+') then
      match ParseDigits(s[1..])
      case None => None
      case Some(n) => Some((if s[0] == '-' then -1 else 1) * n)
    else
      match ParseDigits(s)
      case None => None
      case Some(n) => Some(n)
  }

  function ShowNat(n: nat): string {
    if n < 10 then ['0' + n as char] else ShowNat(n / 10) + ['0' + (n % 10) as char]
  }

  /** `str(n)`. */
  function Show(n: int): string {
    if n < 0 then "-" + ShowNat(-n) else ShowNat(n)
  }

  lemma {:induction false} ShowNatDigits(n: nat)
    ensures ShowNat(n) != "" && forall c :: c in ShowNat(n) ==> IsDigit(c)
    ensures ParseDigits(ShowNat(n)) == Some(n)
  {
    if n >= 10 {
      ShowNatDigits(n / 10);
      var s := ShowNat(n);
      assert s[..|s| - 1] == ShowNat(n / 10);
      assert s[|s| - 2] in ShowNat(n / 10);
    }
  }

  lemma ShowRoundTrip(n: int)
    ensures ParseInt(Show(n)) == Some(n)
  {
    var s := Show(n);
    ShowNatDigits(if n < 0 then -n else n);
    assert s[0] in s && s[|s| - 1] in s;
    assert IsDigit(s[|s| - 1]);
    assert n < 0 ==> s[1..] == ShowNat(-n);
    assert StripLeft(s) == s && StripRight(s) == s;
  }

  // ---- reading the option ----

  predicate IsSplit(args: seq<string>, i: nat)
    requires i < |args|
  {
    (args[i] == SHORT || args[i] == LONG) && i + 1 < |args|
  }

  predicate IsJoined(arg: string) {
    StartsWith(arg, LONG + "=")
  }

  predicate IsCompact(arg: string) {
    StartsWith(arg, SHORT) && arg != SHORT
  }

  /** The worker count that argument `i` gives, if it gives one. */
  function OptionAt(args: seq<string>, i: nat): Option<string>
    requires i < |args|
  {
    if IsSplit(args, i) then Some(args[i + 1])
    else if IsJoined(args[i]) then Some(args[i][|LONG| + 1..])
    else if IsCompact(args[i]) then Some(args[i][|SHORT|..])
    else None
  }

  /** The last argument before `n` that gives a worker count. */
  function LastBefore(args: seq<string>, n: nat): (at: Option<nat>)
    requires n <= |args|
    ensures at.Some? ==> at.value < n && OptionAt(args, at.value).Some?
    ensures forall i :: (if at.Some? then at.value + 1 else 0) <= i < n ==> OptionAt(args, i).None?
  {
    if n == 0 then None
    else if OptionAt(args, n - 1).Some? then Some(n - 1)
    else LastBefore(args, n - 1)
  }

  /** `_last_option_value(args, "--numprocesses", "-n")`. */
  function LastOptionValue(args: seq<string>): Option<string> {
    var at := LastBefore(args, |args|);
    if at.None? then None else OptionAt(args, at.value)
  }

  // ---- the cap ----

  /** The value is a request for all cores, not a number, or above the cap. */
  predicate NeedsCap(value: string, safe: int) {
    value == "auto" || value == "logical" || ParseInt(value).None? || ParseInt(value).value > safe
  }

  /** The argument list with its effective worker count capped. */
  function Capped(args: seq<string>, safe: int): seq<string> {
    var at := LastBefore(args, |args|);
    if at.None? || !NeedsCap(OptionAt(args, at.value).value, safe) then args
    else if IsSplit(args, at.value) then args[at.value + 1 := Show(safe)]
    else if IsJoined(args[at.value]) then args[at.value := LONG + "=" + Show(safe)]
    else args[at.value := SHORT + Show(safe)]
  }

  /** `_rewrite_numprocesses_args`: returns the value it replaced. */
  method RewriteNumprocessesArgs(args: array<string>, safe: int) returns (replaced: Option<string>)
    modifies args
    ensures args[..] == Capped(old(args[..]), safe)
    ensures replaced == var value := LastOptionValue(old(args[..]));
                        if value.Some? && NeedsCap(value.value, safe) then value else None
  {
    var candidate: Option<nat> := None;
    ghost var before := args[..];
    for idx := 0 to args.Length
      invariant args[..] == before && candidate == LastBefore(before, idx)
    {
      var arg := args[idx];
      if ((arg == SHORT || arg == LONG) && idx + 1 < args.Length) || IsJoined(arg) || IsCompact(arg) {
        candidate := Some(idx);
      }
    }
    if candidate.None? {
      return None;
    }
    var idx := candidate.value;
    var arg := args[idx];
    if (arg == SHORT || arg == LONG) && idx + 1 < args.Length {
      var value := args[idx + 1];
      if !NeedsCap(value, safe) {
        return None;
      }
      args[idx + 1] := Show(safe);
      return Some(value);
    }
    var joined := IsJoined(arg);
    var value := if joined then arg[|LONG| + 1..] else arg[|SHORT|..];
    if !NeedsCap(value, safe) {
      return None;
    }
    args[idx] := if joined then LONG + "=" + Show(safe) else SHORT + Show(safe);
    return Some(value);
  }

  // ---- what the cap guarantees ----

  /** A number starts with a digit, or with a minus sign and a digit. */
  lemma ShowStarts(n: int)
    ensures var s := Show(n); s != "" && (IsDigit(s[0]) || (s[0] == '-' && |s| >= 2 && IsDigit(s[1])))
  {
    var s := Show(n);
    ShowNatDigits(if n < 0 then -n else n);
    if n < 0 {
      assert s[1] in ShowNat(-n);
    } else {
      assert s[0] in s;
    }
  }

  /** Text that starts like a number is no option. */
  lemma DigitsAreNoOption(s: string)
    requires s != "" && (IsDigit(s[0]) || (s[0] == '-' && |s| >= 2 && IsDigit(s[1])))
    ensures s != SHORT && s != LONG && !IsJoined(s) && !IsCompact(s)
  {
    assert LONG[0] == '-' && LONG[1] == '-' && SHORT[0] == '-' && SHORT[1] == 'n';
    assert (LONG + "=")[0] == '-' && (LONG + "=")[1] == '-';
  }

  /** A number is no option, and differs from the two words. */
  lemma NumberIsNoOption(n: int)
    ensures Show(n) != SHORT && Show(n) != LONG && !IsJoined(Show(n)) && !IsCompact(Show(n))
    ensures Show(n) != "auto" && Show(n) != "logical" && Show(n) != ""
  {
    ShowStarts(n);
    DigitsAreNoOption(Show(n));
  }

  /** The rewritten argument gives the cap. */
  lemma RewrittenGivesCap(args: seq<string>, at: nat, safe: int)
    requires at < |args|
    ensures IsSplit(args, at) ==> OptionAt(args[at + 1 := Show(safe)], at) == Some(Show(safe))
    ensures OptionAt(args[at := LONG + "=" + Show(safe)], at) == Some(Show(safe))
    ensures OptionAt(args[at := SHORT + Show(safe)], at) == Some(Show(safe))
  {
    NumberIsNoOption(safe);
    var joined, compact := LONG + "=" + Show(safe), SHORT + Show(safe);
    assert |joined| > |LONG| && joined[1] == '-' && SHORT[1] == 'n';
    assert compact[1] == 'n' && LONG[1] == '-' && (LONG + "=")[1] == '-';
    assert joined == (LONG + "=") + Show(safe);
  }

  /** Nothing after the rewritten position turns into an option. */
  lemma LaterStaysSilent(args: seq<string>, at: nat, p: nat, text: string, i: nat)
    requires at < |args| && p < |args| && (p == at || (p == at + 1 && IsSplit(args, at)))
    requires forall j :: at < j < |args| ==> OptionAt(args, j).None?
    requires p == at + 1 ==> text != SHORT && text != LONG && !IsJoined(text) && !IsCompact(text)
    requires at < i < |args|
    ensures OptionAt(args[p := text], i).None?
  {
    assert OptionAt(args, i).None?;
  }

  lemma LastBeforeIs(args: seq<string>, n: nat, at: nat)
    requires at < n <= |args| && OptionAt(args, at).Some?
    requires forall i :: at < i < n ==> OptionAt(args, i).None?
    ensures LastBefore(args, n) == Some(at)
  {
  }

  /** If a value is capped, the effective value becomes exactly the cap. */
  lemma CappedValue(args: seq<string>, safe: int)
    ensures var value := LastOptionValue(args);
            LastOptionValue(Capped(args, safe)) ==
            if value.Some? && NeedsCap(value.value, safe) then Some(Show(safe)) else value
  {
    var at := LastBefore(args, |args|);
    if at.Some? && NeedsCap(OptionAt(args, at.value).value, safe) {
      RewrittenGivesCap(args, at.value, safe);
      NumberIsNoOption(safe);
      var capped := Capped(args, safe);
      var p := if IsSplit(args, at.value) then at.value + 1 else at.value;
      assert capped == args[p := capped[p]];
      forall i | at.value < i < |capped|
        ensures OptionAt(capped, i).None?
      {
        LaterStaysSilent(args, at.value, p, capped[p], i);
      }
      LastBeforeIs(capped, |capped|, at.value);
    }
  }

  /** The lists have one length and agree but at position `p`. */
  ghost predicate SameExcept(a: seq<string>, b: seq<string>, p: nat) {
    |a| == |b| && forall i :: 0 <= i < |a| && i != p ==> a[i] == b[i]
  }

  /**
   * After the rewriting, the worker count pytest reads is absent or a number no larger than
   * the cap; at most one argument changed; and rewriting again changes nothing.
   */
  lemma CapHolds(args: seq<string>, safe: int)
    ensures var capped := Capped(args, safe); var value := LastOptionValue(capped);
            && (value.Some? ==> ParseInt(value.value).Some? && ParseInt(value.value).value <= safe)
            && (value.None? <==> LastOptionValue(args).None?)
            && (exists p :: SameExcept(capped, args, p))
            && Capped(capped, safe) == capped
  {
    CappedValue(args, safe);
    ShowRoundTrip(safe);
    NumberIsNoOption(safe);
    var capped := Capped(args, safe);
    var at := LastBefore(args, |args|);
    var p := if at.None? then 0 else if IsSplit(args, at.value) then at.value + 1 else at.value;
    assert SameExcept(capped, args, p);
    assert LastOptionValue(capped).Some? ==> !NeedsCap(LastOptionValue(capped).value, safe);
  }
}
