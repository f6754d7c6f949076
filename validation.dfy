/**
 * The two input checks of the signup handler: `validateEmail`, a test against
 * the pattern /^[^\s@]+@[^\s@]+\.[^\s@]+$/, and `validatePassword`, a length check.
 */
module Validation {
  import opened Text

  /** The character class `[^\s@]` that every group of the pattern is made of. */
  predicate IsAtom(c: char)
  {
    !IsJsSpace(c) && c != '@'
  }

  predicate AllAtoms(s: string)
  {
    forall i :: 0 <= i < |s| ==> IsAtom(s[i])
  }

  /** The pattern read literally: three non-empty groups, separated by '@' and by '.'. */
  predicate MatchesEmailPattern(s: string)
  {
    exists i, j ::
      && 0 < i && i + 1 < j < |s| - 1
      && s[i] == '@' && s[j] == '.'
      && AllAtoms(s[..i]) && AllAtoms(s[i + 1..j]) && AllAtoms(s[j + 1..])
  }

  /** A '.' in `r` that is neither its first nor its last character. */
  predicate HasInnerDot(r: string)
  {
    exists k :: 0 < k < |r| - 1 && r[k] == '.'
  }

  /** Some '@' at or after `lo` splits `s` into a local part and a domain with an inner '.'. */
  predicate SplitsAt(s: string, lo: nat)
  {
    exists i :: lo <= i < |s| && s[i] == '@' && AllAtoms(s[..i]) && AllAtoms(s[i + 1..]) && HasInnerDot(s[i + 1..])
  }

  /**
   * `s` is L '@' R where L and R are non-empty and hold no whitespace and no '@',
   * and R holds a '.' that is neither its first nor its last character.
   */
  predicate IsAddress(s: string)
  {
    SplitsAt(s, 1)
  }

  /** The states of a left-to-right scan for the pattern. */
  datatype Scan =
    | Start     // nothing read
    | InLocal   // one or more local-part characters read
    | AfterAt   // the '@' was the last character
    | InDomain  // one or more domain characters read, no separating '.' yet
    | AfterDot  // a separating '.' was the last character
    | InTail    // one or more characters after a separating '.'
    | Rejected

  function Step(st: Scan, c: char): Scan
  {
    match st
    case Start => if IsAtom(c) then InLocal else Rejected
    case InLocal => if c == '@' then AfterAt else if IsAtom(c) then InLocal else Rejected
    case AfterAt => if IsAtom(c) then InDomain else Rejected
    case InDomain => if c == '.' then AfterDot else if IsAtom(c) then InDomain else Rejected
    case AfterDot => if IsAtom(c) then InTail else Rejected
    case InTail => if IsAtom(c) then InTail else Rejected
    case Rejected => Rejected
  }

  function Run(st: Scan, s: string): Scan
    decreases |s|
  {
    if s == [] then st else Run(Step(st, s[0]), s[1..])
  }

  /** `validateEmail(email)`: the pattern test, computed by one scan. */
  predicate ValidateEmail(email: string)
  {
    Run(Start, email) == InTail
  }

  lemma AllAtomsCons(s: string)
    requires s != []
    ensures AllAtoms(s) <==> IsAtom(s[0]) && AllAtoms(s[1..])
  {
    if IsAtom(s[0]) && AllAtoms(s[1..]) {
      forall i | 0 <= i < |s| ensures IsAtom(s[i]) {
        if i > 0 { assert s[i] == s[1..][i - 1]; }
      }
    }
  }

  lemma {:induction false} RunRejected(s: string)
    ensures Run(Rejected, s) == Rejected
  {
    if s != [] {
      RunRejected(s[1..]);
    }
  }

  lemma {:induction false} RunInTail(s: string)
    ensures Run(InTail, s) == InTail <==> AllAtoms(s)
  {
    if s != [] {
      AllAtomsCons(s);
      if IsAtom(s[0]) {
        RunInTail(s[1..]);
      } else {
        RunRejected(s[1..]);
      }
    }
  }

  lemma RunAfterDot(s: string)
    ensures Run(AfterDot, s) == InTail <==> s != [] && AllAtoms(s)
  {
    if s != [] {
      AllAtomsCons(s);
      if IsAtom(s[0]) {
        RunInTail(s[1..]);
      } else {
        RunRejected(s[1..]);
      }
    }
  }

  /** A '.' anywhere in `s` except at its last position. */
  predicate DotBeforeLast(s: string)
  {
    exists k :: 0 <= k < |s| - 1 && s[k] == '.'
  }

  lemma {:induction false} RunInDomain(s: string)
    ensures Run(InDomain, s) == InTail <==> AllAtoms(s) && DotBeforeLast(s)
  {
    if s != [] {
      AllAtomsCons(s);
      var t := s[1..];
      if !IsAtom(s[0]) {
        RunRejected(t);
      } else if s[0] == '.' {
        RunAfterDot(t);
      } else {
        RunInDomain(t);
        if DotBeforeLast(t) {
          var k :| 0 <= k < |t| - 1 && t[k] == '.';
          assert s[k + 1] == '.';
        }
        if DotBeforeLast(s) {
          var k :| 0 <= k < |s| - 1 && s[k] == '.';
          assert t[k - 1] == '.';
        }
      }
    }
  }

  lemma RunAfterAt(s: string)
    ensures Run(AfterAt, s) == InTail <==> AllAtoms(s) && HasInnerDot(s)
  {
    if s != [] {
      AllAtomsCons(s);
      var t := s[1..];
      if !IsAtom(s[0]) {
        RunRejected(t);
      } else {
        RunInDomain(t);
        if DotBeforeLast(t) {
          var k :| 0 <= k < |t| - 1 && t[k] == '.';
          assert s[k + 1] == '.';
        }
        if HasInnerDot(s) {
          var k :| 0 < k < |s| - 1 && s[k] == '.';
          assert t[k - 1] == '.';
        }
      }
    }
  }

  /** With '@' first, the only split is at index 0: the rest must be a valid domain. */
  lemma SplitsAtHead(s: string)
    requires s != [] && s[0] == '@'
    ensures SplitsAt(s, 0) <==> AllAtoms(s[1..]) && HasInnerDot(s[1..])
  {
    if AllAtoms(s[1..]) && HasInnerDot(s[1..]) {
      assert s[..0] == [];
    }
    if SplitsAt(s, 0) {
      var i :| 0 <= i < |s| && s[i] == '@' && AllAtoms(s[..i]) && AllAtoms(s[i + 1..]) && HasInnerDot(s[i + 1..]);
      if i > 0 { assert s[..i][0] == '@'; }
    }
  }

  /** A split of the tail is a split of the whole, one position later. */
  lemma SplitsAtCons(s: string)
    requires s != [] && IsAtom(s[0]) && SplitsAt(s[1..], 0)
    ensures SplitsAt(s, 0)
  {
    var t := s[1..];
    var i :| 0 <= i < |t| && t[i] == '@' && AllAtoms(t[..i]) && AllAtoms(t[i + 1..]) && HasInnerDot(t[i + 1..]);
    assert s[..i + 1][1..] == t[..i];
    AllAtomsCons(s[..i + 1]);
    assert s[i + 2..] == t[i + 1..];
    assert s[i + 1] == '@';
  }

  /** A split of the whole, past a leading atom, is a split of the tail. */
  lemma SplitsAtTail(s: string)
    requires s != [] && IsAtom(s[0]) && SplitsAt(s, 0)
    ensures SplitsAt(s[1..], 0)
  {
    var t := s[1..];
    var i :| 0 <= i < |s| && s[i] == '@' && AllAtoms(s[..i]) && AllAtoms(s[i + 1..]) && HasInnerDot(s[i + 1..]);
    assert i > 0;
    assert s[..i][1..] == t[..i - 1];
    AllAtomsCons(s[..i]);
    assert s[i + 1..] == t[i..];
    assert t[i - 1] == '@';
  }

  lemma {:induction false} RunInLocal(s: string)
    ensures Run(InLocal, s) == InTail <==> SplitsAt(s, 0)
  {
    if s != [] {
      var t := s[1..];
      if s[0] == '@' {
        RunAfterAt(t);
        SplitsAtHead(s);
      } else if IsAtom(s[0]) {
        RunInLocal(t);
        if SplitsAt(t, 0) { SplitsAtCons(s); }
        if SplitsAt(s, 0) { SplitsAtTail(s); }
      } else {
        RunRejected(t);
      }
    }
  }

  lemma RunStart(s: string)
    ensures Run(Start, s) == InTail <==> IsAddress(s)
  {
    if s != [] {
      var t := s[1..];
      if IsAtom(s[0]) {
        RunInLocal(t);
        if SplitsAt(t, 0) {
          var i :| 0 <= i < |t| && t[i] == '@' && AllAtoms(t[..i]) && AllAtoms(t[i + 1..]) && HasInnerDot(t[i + 1..]);
          assert s[..i + 1][1..] == t[..i];
          AllAtomsCons(s[..i + 1]);
          assert s[i + 2..] == t[i + 1..];
          assert s[i + 1] == '@';
        }
        if IsAddress(s) {
          var i :| 1 <= i < |s| && s[i] == '@' && AllAtoms(s[..i]) && AllAtoms(s[i + 1..]) && HasInnerDot(s[i + 1..]);
          assert s[..i][1..] == t[..i - 1];
          AllAtomsCons(s[..i]);
          assert s[i + 1..] == t[i..];
          assert t[i - 1] == '@';
        }
      } else {
        RunRejected(t);
      }
    }
  }

  /** `validateEmail` accepts exactly the addresses L '@' R described at IsAddress. */
  lemma ValidateEmailIsAddress(email: string)
    ensures ValidateEmail(email) <==> IsAddress(email)
  {
    RunStart(email);
  }

  lemma AddressToPattern(s: string, i: nat, k: nat)
    requires 1 <= i < |s| && s[i] == '@' && AllAtoms(s[..i]) && AllAtoms(s[i + 1..])
    requires 0 < k < |s[i + 1..]| - 1 && s[i + 1..][k] == '.'
    ensures MatchesEmailPattern(s)
  {
    var r := s[i + 1..];
    var j := i + 1 + k;
    assert s[i + 1..j] == r[..k];
    assert s[j + 1..] == r[k + 1..];
    assert s[j] == '.';
  }

  lemma PatternToAddress(s: string, i: nat, j: nat)
    requires 0 < i && i + 1 < j < |s| - 1 && s[i] == '@' && s[j] == '.'
    requires AllAtoms(s[..i]) && AllAtoms(s[i + 1..j]) && AllAtoms(s[j + 1..])
    ensures IsAddress(s)
  {
    var r := s[i + 1..];
    var k := j - i - 1;
    forall m | 0 <= m < |r| ensures IsAtom(r[m]) {
      if m < k {
        assert r[m] == s[i + 1..j][m];
      } else if m > k {
        assert r[m] == s[j + 1..][m - k - 1];
      }
    }
    assert r[k] == '.';
    assert HasInnerDot(r);
  }

  /** The L '@' R reading and the literal three-group reading of the pattern agree. */
  lemma AddressMatchesPattern(s: string)
    ensures IsAddress(s) <==> MatchesEmailPattern(s)
  {
    if IsAddress(s) {
      var i :| 1 <= i < |s| && s[i] == '@' && AllAtoms(s[..i]) && AllAtoms(s[i + 1..]) && HasInnerDot(s[i + 1..]);
      var k :| 0 < k < |s[i + 1..]| - 1 && s[i + 1..][k] == '.';
      AddressToPattern(s, i, k);
    }
    if MatchesEmailPattern(s) {
      var i, j :| && 0 < i && i + 1 < j < |s| - 1
                  && s[i] == '@' && s[j] == '.'
                  && AllAtoms(s[..i]) && AllAtoms(s[i + 1..j]) && AllAtoms(s[j + 1..]);
      PatternToAddress(s, i, j);
    }
  }

  /** `validateEmail` accepts exactly the strings the regular expression matches. */
  lemma ValidateEmailMatchesPattern(email: string)
    ensures ValidateEmail(email) <==> MatchesEmailPattern(email)
  {
    ValidateEmailIsAddress(email);
    AddressMatchesPattern(email);
  }

  /** A validated address holds no whitespace at all. */
  lemma ValidEmailHasNoSpace(email: string)
    requires ValidateEmail(email)
    ensures forall i :: 0 <= i < |email| ==> !IsJsSpace(email[i])
  {
    ValidateEmailIsAddress(email);
    var i :| 1 <= i < |email| && email[i] == '@' && AllAtoms(email[..i]) && AllAtoms(email[i + 1..]) && HasInnerDot(email[i + 1..]);
    forall m | 0 <= m < |email| ensures !IsJsSpace(email[m]) {
      if m < i {
        assert email[m] == email[..i][m];
      } else if m > i {
        assert email[m] == email[i + 1..][m - i - 1];
      }
    }
  }

  /** `validatePassword(password)`: `password.length >= 8`, counted in UTF-16 code units. */
  function ValidatePassword(password: string): (ok: bool)
    ensures |password| >= 8 ==> ok
    ensures ok ==> |password| >= 4
  {
    Utf16Length(password) >= 8
  }

  /** Without characters outside the Basic Multilingual Plane, the check is exactly "at least 8 characters". */
  lemma ValidatePasswordBmp(password: string)
    requires forall i :: 0 <= i < |password| ==> password[i] as int <= 0xFFFF
    ensures ValidatePassword(password) <==> |password| >= 8
  {
    Utf16LengthBmp(password);
  }
}
