/** What a password change asks for (server.go): the modify request held to section 4.6 of
    RFC 4511. */
module PasswordRequests {
  import opened Wrappers

  // ----- section 4.6 of RFC 4511 -----

  datatype Operation = Add | Delete | Replace

  /** One change. onPassword says the attribute is userPassword, in any case. */
  datatype Modification = Modification(op: Operation, onPassword: bool, values: seq<string>)

  function ValueSet(values: seq<string>): set<string> {
    set v | v in values
  }

  /** What one change makes of the values userPassword has, if it can be made: a value
      added must be new, a value deleted must be there, and replacing always can. */
  function Apply(held: set<string>, c: Modification): Option<set<string>> {
    var vs := ValueSet(c.values);
    if !c.onPassword then Some(held)
    else match c.op
      case Add => if vs != {} && vs !! held then Some(held + vs) else None
      case Delete =>
        if held == {} || !(vs <= held) then None
        else if c.values == [] then Some({})
        else Some(held - vs)
      case Replace => Some(vs)
  }

  /** The whole list in its order, or none of it. */
  function ApplyAll(held: set<string>, cs: seq<Modification>): Option<set<string>> {
    if cs == [] then Some(held)
    else
      var before := ApplyAll(held, cs[..|cs| - 1]);
      if before.None? then None else Apply(before.value, cs[|cs| - 1])
  }

  // ----- the requests the server understands -----

  /** The new password, and the old one when the request carried it. */
  datatype Wanted = Wanted(old_: Option<string>, password: string)

  datatype Misfit = AnotherAttribute | NotOneValue | NotAChange

  function OnlyAPasswordChange(cs: seq<Modification>): Result<Wanted, Misfit> {
    if exists c :: c in cs && !c.onPassword then Failure(AnotherAttribute)
    else if |cs| == 1 && cs[0].op.Replace? then
      if |cs[0].values| != 1 then Failure(NotOneValue) else Success(Wanted(None, cs[0].values[0]))
    else if |cs| == 2 && cs[0].op.Delete? && cs[1].op.Add? then
      if |cs[0].values| != 1 || |cs[1].values| != 1 then Failure(NotOneValue)
      else Success(Wanted(Some(cs[0].values[0]), cs[1].values[0]))
    else Failure(NotAChange)
  }

  /** A request that carries the old password does to the value held exactly what section
      4.6 says: it can be made if and only if that is the old password, and then it leaves
      the new one and nothing else. */
  lemma MeansSection46(cs: seq<Modification>, current: string)
    requires OnlyAPasswordChange(cs).Success? && OnlyAPasswordChange(cs).value.old_.Some?
    ensures var w := OnlyAPasswordChange(cs).value;
            ApplyAll({current}, cs) == if w.old_ == Some(current) then Some({w.password}) else None
  {
    var o, n := cs[0].values[0], cs[1].values[0];
    assert cs[0] in cs && cs[1] in cs;
    assert cs[..1][..0] == [] && cs[..1][0] == cs[0];
    assert cs[0].values == [o] && ValueSet(cs[0].values) == {o};
    assert cs[1].values == [n] && ValueSet(cs[1].values) == {n};
    assert ApplyAll({current}, cs[..1]) == Apply({current}, cs[0]);
    if o == current {
      assert {current} - {o} == {};
      assert {} + {n} == {n};
    }
  }

  /** Replacing can always be made, whatever was held: it proves nothing. */
  lemma ReplacingProvesNothing(cs: seq<Modification>, held: set<string>)
    requires OnlyAPasswordChange(cs).Success? && OnlyAPasswordChange(cs).value.old_.None?
    ensures ApplyAll(held, cs) == Some({OnlyAPasswordChange(cs).value.password})
  {
    assert cs[0] in cs && cs[..0] == [];
    assert cs[0].values == [cs[0].values[0]] && ValueSet(cs[0].values) == {cs[0].values[0]};
  }

  /** Of the lists that name no other attribute, delete one value and add one, or replace
      by one: these are understood and no others. */
  lemma UnderstoodExactly(cs: seq<Modification>)
    ensures OnlyAPasswordChange(cs).Success? <==>
              || (exists n :: cs == [Modification(Replace, true, [n])])
              || (exists o, n :: cs == [Modification(Delete, true, [o]), Modification(Add, true, [n])])
  {
    if OnlyAPasswordChange(cs).Success? {
      assert cs[0] in cs && cs[|cs| - 1] in cs;
      var a := cs[0].values[0];
      assert cs[0].values == [a];
      if |cs| == 1 {
        assert cs == [Modification(Replace, true, [a])];
      } else {
        var b := cs[1].values[0];
        assert cs[1].values == [b];
        assert cs == [Modification(Delete, true, [a]), Modification(Add, true, [b])];
      }
    }
  }
}
