/**
 The life of a published owner, use by use: whether it is active is the last switch made,
 a switch to where it already is is refused, and tokens name its two mappings only.
 */
module OwnerLaws {
  import opened Words
  import opened AddressSpace

  /** The two user addresses a token may name. */
  predicate Mapped(address: u64) {
    address == 0x80_0040_0000 || address == 0x80_0080_0000
  }

  /** After `k` uses the owner is where the last switch among them put it. */
  predicate LeftActive(acts: seq<Act>, k: nat, was: bool)
    requires k <= |acts|
  {
    if k == 0 then was
    else match acts[k - 1]
         case ActivateAct => true
         case RecoverAct => false
         case _ => LeftActive(acts, k - 1, was)
  }

  /** What a live owner refuses, given whether it is active. */
  predicate Refuses(generation: u64, active: bool, act: Act) {
    match act
    case ActivateAct => active
    case RecoverAct => !active
    case MintAct(address) => !Mapped(address)
    case CheckAct(token) => token.generation != generation || !Mapped(token.address)
    case TeardownAct => active
  }

  function Switched(owner: Owner, active: bool): Owner {
    owner.(state := if active then Active else Inactive)
  }

  lemma UseExactly<S, E>(step: Backend<S, E>, m: Machine<S, E>, owner: Owner, act: Act)
    requires OwnerInv(owner) && owner.live && act != TeardownAct
    ensures var active := owner.state == Active;
            ApplyAct(step, m, owner, act) ==
              (m, Switched(owner, LeftActive([act], 1, active)), Refuses(owner.generation, active, act))
  {
    hide Published, Teardown;
    assert LeftActive([act], 0, owner.state == Active) == (owner.state == Active);
  }

  /** A live owner asked anything but to be torn down answers as its last switch says, and asks the backend nothing. */
  lemma {:induction false} UsesExactly<S, E>(step: Backend<S, E>, m: Machine<S, E>, owner: Owner, acts: seq<Act>)
    requires OwnerInv(owner) && owner.live && TeardownAct !in acts
    ensures var was := owner.state == Active;
            var (m', o', refused) := UseOwner(step, m, owner, acts);
            && m' == m && o' == Switched(owner, LeftActive(acts, |acts|, was))
            && forall k :: 0 <= k < |acts| ==>
                 refused[k] == Refuses(owner.generation, LeftActive(acts, k, was), acts[k])
    decreases |acts|
  {
    hide ApplyAct, Published, Refuses;
    if acts != [] {
      var was := owner.state == Active;
      UseExactly(step, m, owner, acts[0]);
      var o1 := ApplyAct(step, m, owner, acts[0]).1;
      UsesExactly(step, m, o1, acts[1..]);
      var (m', o', refused) := UseOwner(step, m, owner, acts);
      LastSwitch(acts, |acts|, was);
      forall k | 0 <= k < |acts|
        ensures refused[k] == Refuses(owner.generation, LeftActive(acts, k, was), acts[k])
      {
        if k > 0 {
          LastSwitch(acts, k, was);
          assert refused[k] == UseOwner(step, m, o1, acts[1..]).2[k - 1];
        }
      }
    }
  }

  lemma {:induction false} LastSwitch(acts: seq<Act>, k: nat, was: bool)
    requires 0 < k <= |acts|
    ensures LeftActive(acts, k, was) == LeftActive(acts[1..], k - 1, LeftActive([acts[0]], 1, was))
    decreases k
  {
    if k > 1 {
      assert acts[1..][k - 2] == acts[k - 1];
      LastSwitch(acts, k - 1, was);
    } else {
      assert LeftActive([acts[0]], 0, was) == LeftActive(acts, 0, was);
    }
  }

  /** Tearing down is refused exactly to an owner that is active or dead; then nothing was said to the backend. */
  lemma TeardownAdmitted<S, E>(step: Backend<S, E>, m: Machine<S, E>, owner: Owner)
    requires OwnerInv(owner)
    ensures var (m', torn) := Teardown(step, m, owner);
            && (torn.OwnerRefused? <==> !owner.live || owner.state == Active)
            && (torn.OwnerRefused? ==> m' == m && torn == OwnerRefused(WrongState, owner))
            && (!torn.OwnerRefused? ==> !ApplyAct(step, m, owner, TeardownAct).1.live)
  {
    hide Unwind, Published;
  }

  /** A minted token carries the owner's generation and the address asked for, and the first failing check is told. */
  lemma TokensExactly(owner: Owner, address: u64, token: MappingToken)
    ensures var alive := owner.live && owner.state != Dead;
            && MintToken(owner, address)
            == (if !alive then Err(StaleOwner)
                else if Mapped(address) then Ok(MappingToken(owner.generation, address))
                else Err(InvalidTokenAddress))
            && (ValidateToken(owner, token) == Fail(StaleOwner) <==> !alive)
            && (ValidateToken(owner, token) == Fail(StaleToken) <==> alive && token.generation != owner.generation)
            && (ValidateToken(owner, token) == Pass <==>
                  alive && token.generation == owner.generation && Mapped(token.address))
  {
  }
}
