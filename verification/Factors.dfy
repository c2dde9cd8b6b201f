/** The second factor behind the password (factors.go). What counts the codes of a person
    is a library's, taken as a state and how one check of a code changes it; the password is
    checked by its source, which may answer differently each time it is asked. */
module Factors {
  import opened Wrappers

  // ----- the field that carries both -----

  /** splitCode: the last characters are the code, and a field no longer than a code is
      neither. */
  function SplitCode(given: string, digits: nat): Option<(string, string)> {
    if |given| <= digits then None
    else Some((given[..|given| - digits], given[|given| - digits..]))
  }

  /** A field is read as a password and a code exactly when it is their concatenation, with
      a code of that length and a password that is not empty. */
  lemma SplitCodeMeans(given: string, digits: nat, password: string, code: string)
    ensures SplitCode(given, digits) == Some((password, code)) <==>
              given == password + code && |code| == digits && password != ""
  {
    if given == password + code && |code| == digits && password != "" {
      assert given[..|password|] == password && given[|password|..] == code;
    }
  }

  // ----- the codes -----

  /** One check of a code: whose, with what secret, what was typed, when. */
  datatype Check = Check(name: string, secret: seq<char>, code: string, now: int)

  /** What a check leaves behind, and whether the code was right. */
  type Counting<!C> = (C, Check) -> (C, bool)

  /** Somebody with no secret is told so before anything is looked at. */
  ghost predicate NothingToCount<C(!new)>(count: Counting<C>) {
    forall c: C, k: Check :: k.secret == "" ==> count(c, k) == (c, false)
  }

  datatype Factor = Password | Code

  /** One bind: what was typed, the order in which a policy asks its factors, and what the
      source of the password would answer if it were asked at each of these questions. */
  datatype Bind = Bind(
    name: string, secret: string, typed: string, digits: nat, order: seq<Factor>, says: seq<bool>, times: seq<int>)

  predicate WellFormed(b: Bind) {
    |b.order| == |b.says| == |b.times|
  }

  /** A bind under way: the password's cached answer, how often its source was asked, and
      the codes. */
  datatype Progress<C> = Progress(once: bool, right: bool, asked: nat, codes: C)

  function AskPassword<C>(p: Progress<C>, says: bool): Progress<C> {
    if p.once then p else p.(once := true, right := says, asked := p.asked + 1)
  }

  /** The code asks for the password first, and only behind the right one does it ask what
      counts. */
  function Ask<C>(count: Counting<C>, p: Progress<C>, f: Factor, says: bool, k: Check): Progress<C> {
    var q := AskPassword(p, says);
    if f.Code? && (q.right || k.secret == "") then q.(codes := count(q.codes, k).0) else q
  }

  function Asks<C>(count: Counting<C>, p: Progress<C>, b: Bind, code: string, n: nat): Progress<C>
    requires WellFormed(b) && n <= |b.order|
  {
    if n == 0 then p
    else
      var check := Check(b.name, b.secret, code, b.times[n - 1]);
      Ask(count, Asks(count, p, b, code, n - 1), b.order[n - 1], b.says[n - 1], check)
  }

  /** A whole bind, from the codes as they were. */
  function After<C>(count: Counting<C>, codes: C, b: Bind): C
    requires WellFormed(b)
  {
    var half := SplitCode(b.typed, b.digits);
    if half.None? then codes
    else Asks(count, Progress(false, false, 0, codes), b, half.value.1, |b.order|).codes
  }

  /** The password half verified: whatever was asked first, the source was asked for it
      then, and said yes. */
  predicate Proven(b: Bind)
    requires WellFormed(b)
  {
    SplitCode(b.typed, b.digits).Some? && b.order != [] && b.says[0]
  }

  /** Whatever the order: the source is asked at most once, its first answer stands, and
      with a wrong password the codes are as they were. */
  lemma {:induction false} OneAnswer<C(!new)>(count: Counting<C>, p: Progress<C>, b: Bind, code: string, n: nat)
    requires WellFormed(b) && n <= |b.order| && NothingToCount(count) && !p.once && p.asked == 0
    ensures var q := Asks(count, p, b, code, n);
            && q.asked == (if n == 0 then 0 else 1) && (q.once <==> n > 0)
            && (n > 0 ==> q.right == b.says[0])
            && (n > 0 && !b.says[0] ==> q.codes == p.codes)
  {
    if n > 0 {
      OneAnswer(count, p, b, code, n - 1);
    }
  }

  // ----- what is counted -----

  /** The code as it is asked for at one question of a bind. */
  function CheckAt(b: Bind, code: string, i: nat): Check
    requires WellFormed(b) && i < |b.order|
  {
    Check(b.name, b.secret, code, b.times[i])
  }

  /** The questions for the code among the first n of a bind. */
  function Questions(b: Bind, code: string, n: nat): seq<Check>
    requires WellFormed(b) && n <= |b.order|
  {
    if n == 0 then []
    else Questions(b, code, n - 1) + if b.order[n - 1].Code? then [CheckAt(b, code, n - 1)] else []
  }

  /** What is left after each of these is counted, once and in order. */
  function Counted<C>(count: Counting<C>, codes: C, checks: seq<Check>): C {
    if checks == [] then codes
    else count(Counted(count, codes, checks[..|checks| - 1]), checks[|checks| - 1]).0
  }

  /** Behind the right password each question for the code is counted exactly once, and
      behind a wrong one none is. */
  lemma {:induction false} AsksCounted<C(!new)>(count: Counting<C>, p: Progress<C>, b: Bind, code: string, n: nat)
    requires WellFormed(b) && NothingToCount(count) && !p.once && p.asked == 0 && n <= |b.order|
    ensures Asks(count, p, b, code, n).codes ==
              if n > 0 && b.says[0] then Counted(count, p.codes, Questions(b, code, n)) else p.codes
  {
    if n > 0 {
      AsksCounted(count, p, b, code, n - 1);
      OneAnswer(count, p, b, code, n - 1);
      OneAnswer(count, p, b, code, n);
      var front := Questions(b, code, n - 1);
      assert (front + [CheckAt(b, code, n - 1)])[..|front|] == front && front + [] == front;
      assert n == 1 ==> front == [];
    }
  }

  /** Before the next question of a bind: what was counted, and what the password is. */
  lemma CountedSoFar<C(!new)>(count: Counting<C>, p: Progress<C>, b: Bind, code: string, n: nat)
    requires WellFormed(b) && NothingToCount(count) && !p.once && p.asked == 0 && n < |b.order|
    ensures var q := Asks(count, p, b, code, n);
            && q.once == (n > 0) && (q.once ==> q.right == b.says[0])
            && (b.says[0] ==> q.codes == Counted(count, p.codes, Questions(b, code, n)))
  {
    AsksCounted(count, p, b, code, n);
    OneAnswer(count, p, b, code, n);
  }

  lemma ProvenIsCounted<C(!new)>(count: Counting<C>, codes: C, b: Bind)
    requires WellFormed(b) && NothingToCount(count)
    ensures After(count, codes, b) ==
              if Proven(b) then Counted(count, codes, Questions(b, SplitCode(b.typed, b.digits).value.1, |b.order|))
              else codes
  {
    var half := SplitCode(b.typed, b.digits);
    if half.Some? {
      AsksCounted(count, Progress(false, false, 0, codes), b, half.value.1, |b.order|);
    }
  }

  lemma UnprovenLeavesNoTrace<C(!new)>(count: Counting<C>, codes: C, b: Bind)
    requires WellFormed(b) && NothingToCount(count) && !Proven(b)
    ensures After(count, codes, b) == codes
  {
    var half := SplitCode(b.typed, b.digits);
    if half.Some? {
      OneAnswer(count, Progress(false, false, 0, codes), b, half.value.1, |b.order|);
    }
  }

  function Run<C>(count: Counting<C>, codes: C, binds: seq<Bind>): C
    requires forall b :: b in binds ==> WellFormed(b)
  {
    if binds == [] then codes
    else After(count, Run(count, codes, binds[..|binds| - 1]), binds[|binds| - 1])
  }

  function OnlyProven(binds: seq<Bind>): (r: seq<Bind>)
    requires forall b :: b in binds ==> WellFormed(b)
    ensures forall b :: b in r ==> WellFormed(b) && Proven(b)
  {
    if binds == [] then []
    else
      var front, b := OnlyProven(binds[..|binds| - 1]), binds[|binds| - 1];
      if Proven(b) then front + [b] else front
  }

  /** Wrong passwords leave no trace: after any binds, of anybody, in any order, the codes
      are as after only those whose password half verified. */
  lemma {:induction false} WrongPasswordsLeaveNoTrace<C(!new)>(count: Counting<C>, codes: C, binds: seq<Bind>)
    requires (forall b :: b in binds ==> WellFormed(b)) && NothingToCount(count)
    ensures Run(count, codes, binds) == Run(count, codes, OnlyProven(binds))
  {
    if binds != [] {
      var front, b := binds[..|binds| - 1], binds[|binds| - 1];
      WrongPasswordsLeaveNoTrace(count, codes, front);
      if Proven(b) {
        var kept := OnlyProven(front) + [b];
        assert kept[..|kept| - 1] == OnlyProven(front);
      } else {
        UnprovenLeavesNoTrace(count, Run(count, codes, front), b);
      }
    }
  }

  // ----- as it runs -----

  /** The password as a factor: asked of its source once. */
  class Knowledge {
    var once: bool
    var right: bool
    ghost var asked: nat

    constructor ()
      ensures !once && !right && asked == 0
    {
      once, right, asked := false, false, 0;
    }

    /** Verify, when the source would answer says. */
    method Verify(says: bool) returns (ok: bool)
      modifies this
      ensures once && ok == right
      ensures right == (if old(once) then old(right) else says)
      ensures asked == if old(once) then old(asked) else old(asked) + 1
    {
      if !once {
        once, right, asked := true, says, asked + 1;
      }
      ok := right;
    }
  }

  class Codes<!C> {
    const count: Counting<C>
    var state: C

    constructor (count: Counting<C>, state: C)
      ensures this.count == count && this.state == state
    {
      this.count, this.state := count, state;
    }

    method Verify(k: Check) returns (ok: bool)
      modifies this
      ensures (state, ok) == count(old(state), k)
    {
      var r := count(state, k);
      state, ok := r.0, r.1;
    }
  }

  /** The code, behind the password. */
  class AfterPassword<!C> {
    const pw: Knowledge
    const codes: Codes<C>

    constructor (pw: Knowledge, codes: Codes<C>)
      ensures this.pw == pw && this.codes == codes
    {
      this.pw, this.codes := pw, codes;
    }

    function State(): Progress<C>
      reads pw, codes
    {
      Progress(pw.once, pw.right, 0, codes.state)
    }

    method Verify(says: bool, k: Check) returns (ok: bool)
      modifies pw, codes
      ensures State() == Ask(codes.count, old(State()), Code, says, k).(asked := 0)
      ensures pw.asked == if old(pw.once) then old(pw.asked) else old(pw.asked) + 1
      ensures ok <==> (pw.right || k.secret == "") && codes.count(old(codes.state), k).1
    {
      var proven := pw.Verify(says);
      if proven {
        ok := codes.Verify(k);
      } else if k.secret == "" {
        ok := codes.Verify(k);
      } else {
        ok := false;
      }
    }
  }

  /** What a factor of a bind answers at one question: the password what its source said
      first, and the code yes only where the password was right and what counts said yes to
      that code, at that time, with everything counted that this bind had asked before. */
  ghost predicate IsAnswer<C(!new)>(count: Counting<C>, codes: C, b: Bind, code: string, i: nat, ok: bool)
    requires WellFormed(b) && i < |b.order|
  {
    var counted := Counted(count, codes, Questions(b, code, i));
    if b.order[i].Password? then ok == b.says[0]
    else ok <==> b.says[0] && count(counted, Check(b.name, b.secret, code, b.times[i])).1
  }

  ghost predicate AreAnswers<C(!new)>(count: Counting<C>, codes: C, b: Bind, code: string, answers: seq<bool>)
    requires WellFormed(b)
  {
    |answers| <= |b.order| && forall i :: 0 <= i < |answers| ==> IsAnswer(count, codes, b, code, i, answers[i])
  }

  /** One question of a bind. */
  method AskFactor<C(!new)>(after: AfterPassword<C>, b: Bind, code: string, i: nat, ghost start: Progress<C>)
    returns (ok: bool)
    requires WellFormed(b) && NothingToCount(after.codes.count) && i < |b.order| && !start.once && start.asked == 0
    requires Progress(after.pw.once, after.pw.right, after.pw.asked, after.codes.state) ==
               Asks(after.codes.count, start, b, code, i)
    modifies after.pw, after.codes
    ensures Progress(after.pw.once, after.pw.right, after.pw.asked, after.codes.state) ==
              Asks(after.codes.count, start, b, code, i + 1)
    ensures IsAnswer(after.codes.count, start.codes, b, code, i, ok)
  {
    CountedSoFar(after.codes.count, start, b, code, i);
    if b.order[i].Password? {
      ok := after.pw.Verify(b.says[i]);
    } else {
      ok := after.Verify(b.says[i], CheckAt(b, code, i));
    }
  }

  /** A bind with a code, its factors asked in the order a policy asks them. A field that is
      no password and a code is asked nothing. */
  method BindWithCode<C(!new)>(codes: Codes<C>, b: Bind) returns (pw: Knowledge, answers: seq<bool>)
    requires WellFormed(b) && NothingToCount(codes.count)
    modifies codes
    ensures codes.state == After(codes.count, old(codes.state), b)
    ensures fresh(pw) && pw.asked <= 1
    ensures !Proven(b) ==> codes.state == old(codes.state)
    ensures |answers| == if SplitCode(b.typed, b.digits).Some? then |b.order| else 0
    ensures SplitCode(b.typed, b.digits).Some? ==>
              AreAnswers(codes.count, old(codes.state), b, SplitCode(b.typed, b.digits).value.1, answers)
  {
    pw := new Knowledge();
    answers := [];
    var half := SplitCode(b.typed, b.digits);
    if half.None? {
      return;
    }
    var typed := half.value.1;
    var code := new AfterPassword(pw, codes);
    ghost var start := Progress(false, false, 0, codes.state);
    for i := 0 to |b.order|
      invariant code.pw == pw && code.codes == codes && fresh(pw) && |answers| == i
      invariant Progress(pw.once, pw.right, pw.asked, codes.state) == Asks(codes.count, start, b, typed, i)
      invariant AreAnswers(codes.count, start.codes, b, typed, answers)
    {
      var ok := AskFactor(code, b, typed, i, start);
      answers := answers + [ok];
    }
    OneAnswer(codes.count, start, b, typed, |b.order|);
  }
}
