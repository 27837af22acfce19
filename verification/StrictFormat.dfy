/**
 * How far the reader is from the standard: an encoding is read in one way only,
 * and it is Borsh proper exactly when every absent allowance is written as 0.
 */
module StrictFormat {
  import opened Options
  import opened DelegateFormat
  import opened PayloadDecoder
  import opened PayloadTheorems

  // ----- one reading only -----------------------------------------------------

  lemma SameLengthSame(buf: Bytes, offset: nat, a: Bytes, b: Bytes)
    requires At(buf, offset, a) && At(buf, offset, b) && |a| == |b|
    ensures a == b
  {
    AtSlice(buf, offset, a);
    AtSlice(buf, offset, b);
  }

  lemma StringUnique(buf: Bytes, offset: nat, a: Bytes, b: Bytes)
    requires |a| < U32_LIMIT && |b| < U32_LIMIT
    requires At(buf, offset, EncodeString(a)) && At(buf, offset, EncodeString(b))
    ensures a == b
  {
    hide At, Slice, U32;
    AtConcat(buf, offset, U32(|a|), a);
    AtConcat(buf, offset, U32(|b|), b);
    ReadU32At(buf, offset, |a|);
    ReadU32At(buf, offset, |b|);
    SameLengthSame(buf, offset + 4, a, b);
  }

  lemma KeyUnique(buf: Bytes, offset: nat, a: PublicKey, b: PublicKey)
    requires KeyFits(a) && KeyFits(b) && At(buf, offset, EncodeKey(a)) && At(buf, offset, EncodeKey(b))
    ensures a == b
  {
    hide At, Slice;
    KeyAt(buf, offset, a);
    KeyAt(buf, offset, b);
  }

  lemma {:induction false} StringsUnique(buf: Bytes, offset: nat, a: seq<Bytes>, b: seq<Bytes>)
    requires AllShort(a) && AllShort(b) && |a| == |b|
    requires At(buf, offset, EncodeStrings(a)) && At(buf, offset, EncodeStrings(b))
    ensures a == b
    decreases |a|
  {
    hide At, Slice, U32, EncodeString;
    if a != [] {
      AtConcat(buf, offset, EncodeString(a[0]), EncodeStrings(a[1..]));
      AtConcat(buf, offset, EncodeString(b[0]), EncodeStrings(b[1..]));
      StringUnique(buf, offset, a[0], b[0]);
      StringsUnique(buf, offset + |EncodeString(a[0])|, a[1..], b[1..]);
    }
  }

  lemma ScopeUnique(buf: Bytes, offset: nat, r: Bytes, ms: seq<Bytes>, r': Bytes, ms': seq<Bytes>)
    requires |r| < U32_LIMIT && |r'| < U32_LIMIT && StringsFit(ms) && StringsFit(ms')
    requires At(buf, offset, EncodeScope(r, ms)) && At(buf, offset, EncodeScope(r', ms'))
    ensures r == r' && ms == ms'
  {
    hide At, Slice, U32, EncodeString, EncodeStrings;
    ScopeParts(buf, offset, r, ms);
    ScopeParts(buf, offset, r', ms');
    StringUnique(buf, offset, r, r');
    var names := offset + |EncodeString(r)|;
    MethodsAt(buf, names, ms);
    MethodsAt(buf, names, ms');
    AtConcat(buf, names, U32(|ms|), EncodeStrings(ms));
    AtConcat(buf, names, U32(|ms'|), EncodeStrings(ms'));
    StringsUnique(buf, names + 4, ms, ms');
  }

  lemma AllowanceUnique(buf: Bytes, offset: nat, a: Allowance, b: Allowance)
    requires if a.Unlimited? then a.tag != 1 else |a.amount| == 16
    requires if b.Unlimited? then b.tag != 1 else |b.amount| == 16
    requires At(buf, offset, EncodeAllowance(a)) && At(buf, offset, EncodeAllowance(b))
    ensures a == b
  {
    hide At, Slice;
    AllowanceAt(buf, offset, a);
    AllowanceAt(buf, offset, b);
    SameLengthSame(buf, offset, EncodeAllowance(a), EncodeAllowance(b));
    if a.Limited? {
      assert EncodeAllowance(a)[1..] == a.amount;
      assert b.Limited? ==> EncodeAllowance(b)[1..] == b.amount;
    }
  }

  lemma AccessKeyUnique(buf: Bytes, offset: nat, a: AccessKey, b: AccessKey)
    requires AccessKeyFits(a) && AccessKeyFits(b)
    requires At(buf, offset, EncodeAccessKey(a)) && At(buf, offset, EncodeAccessKey(b))
    ensures a == b
  {
    hide At, Slice, EncodeScope, EncodeAllowance, StringsFit;
    AccessKeyHead(buf, offset, a);
    AccessKeyHead(buf, offset, b);
    SameLengthSame(buf, offset, a.nonce, b.nonce);
    if a.FunctionCallAccess? {
      CallAccessParts(buf, offset, a);
      CallAccessParts(buf, offset, b);
      AllowanceUnique(buf, offset + 9, a.allowance, b.allowance);
      ScopeUnique(buf, offset + 9 + |EncodeAllowance(a.allowance)|, a.receiver, a.methods, b.receiver, b.methods);
    }
  }

  /** Nonce and permission stand at the head of an access key. */
  lemma AccessKeyHead(buf: Bytes, offset: nat, k: AccessKey)
    requires AccessKeyFits(k) && At(buf, offset, EncodeAccessKey(k))
    ensures At(buf, offset, k.nonce)
    ensures offset + 8 < |buf| && buf[offset + 8] == (if k.FullAccess? then 1 else 0)
  {
    hide At, Slice, EncodeScope, EncodeAllowance, StringsFit;
    if k.FullAccess? {
      AtConcat(buf, offset, k.nonce, [1]);
      AtByte(buf, offset + 8, 1);
    } else {
      CallAccessParts(buf, offset, k);
      AtByte(buf, offset + 8, 0);
    }
  }

  lemma ActionUnique(buf: Bytes, offset: nat, a: Action, b: Action)
    requires ActionFits(a) && ActionFits(b)
    requires At(buf, offset, EncodeAction(a)) && At(buf, offset, EncodeAction(b))
    ensures a == b
  {
    hide At, Slice, EncodePayload, ActionFits;
    AtConcat(buf, offset, [ActionTag(a)], EncodePayload(a));
    AtConcat(buf, offset, [ActionTag(b)], EncodePayload(b));
    AtByte(buf, offset, ActionTag(a));
    AtByte(buf, offset, ActionTag(b));
    PayloadUnique(buf, offset + 1, a, b);
  }

  lemma PayloadUnique(buf: Bytes, body: nat, a: Action, b: Action)
    requires ActionFits(a) && ActionFits(b) && ActionTag(a) == ActionTag(b)
    requires At(buf, body, EncodePayload(a)) && At(buf, body, EncodePayload(b))
    ensures a == b
  {
    hide At, Slice, EncodeString, EncodeKey, EncodeAccessKey, AccessKeyFits, KeyFits;
    match a
    case CreateAccount =>
    case DeployContract(code) => StringUnique(buf, body, code, b.code);
    case FunctionCall(_, _, _, _) => CallUnique(buf, body, a, b);
    case Transfer(deposit) => SameLengthSame(buf, body, deposit, b.deposit);
    case Stake(stake, k) =>
      AtConcat(buf, body, stake, EncodeKey(k));
      AtConcat(buf, body, b.stake, EncodeKey(b.publicKey));
      SameLengthSame(buf, body, stake, b.stake);
      KeyUnique(buf, body + 16, k, b.publicKey);
    case AddKey(k, access) =>
      AtConcat(buf, body, EncodeKey(k), EncodeAccessKey(access));
      AtConcat(buf, body, EncodeKey(b.publicKey), EncodeAccessKey(b.accessKey));
      KeyUnique(buf, body, k, b.publicKey);
      AccessKeyUnique(buf, body + |EncodeKey(k)|, access, b.accessKey);
    case DeleteKey(k) => KeyUnique(buf, body, k, b.publicKey);
    case DeleteAccount(beneficiary) => StringUnique(buf, body, beneficiary, b.beneficiary);
  }

  lemma CallUnique(buf: Bytes, body: nat, a: Action, b: Action)
    requires a.FunctionCall? && b.FunctionCall? && ActionFits(a) && ActionFits(b)
    requires At(buf, body, EncodePayload(a)) && At(buf, body, EncodePayload(b))
    ensures a == b
  {
    hide At, Slice, EncodeString, EncodePayload;
    CallParts(buf, body, a);
    CallParts(buf, body, b);
    StringUnique(buf, body, a.methodName, b.methodName);
    StringUnique(buf, body + |EncodeString(a.methodName)|, a.args, b.args);
    var at := body + |EncodeString(a.methodName)| + |EncodeString(a.args)|;
    SameLengthSame(buf, at, a.gas + a.deposit, b.gas + b.deposit);
    assert (a.gas + a.deposit)[..8] == a.gas && (a.gas + a.deposit)[8..] == a.deposit;
    assert (b.gas + b.deposit)[..8] == b.gas && (b.gas + b.deposit)[8..] == b.deposit;
  }

  lemma {:induction false} ActionsUnique(buf: Bytes, offset: nat, a: seq<Action>, b: seq<Action>)
    requires AllFit(a) && AllFit(b) && |a| == |b|
    ensures At(buf, offset, EncodeActions(a)) && At(buf, offset, EncodeActions(b)) ==> a == b
    decreases |a|
  {
    hide At, Slice, EncodeAction, ActionFits;
    if a != [] && At(buf, offset, EncodeActions(a)) && At(buf, offset, EncodeActions(b)) {
      AtConcat(buf, offset, EncodeAction(a[0]), EncodeActions(a[1..]));
      AtConcat(buf, offset, EncodeAction(b[0]), EncodeActions(b[1..]));
      ActionUnique(buf, offset, a[0], b[0]);
      ActionsUnique(buf, offset + |EncodeAction(a[0])|, a[1..], b[1..]);
    }
  }

  lemma TailUnique(buf: Bytes, offset: nat, a: DelegateAction, b: DelegateAction)
    requires Fits(a) && Fits(b) && At(buf, offset, EncodeTail(a)) && At(buf, offset, EncodeTail(b))
    ensures a.nonce == b.nonce && a.maxBlockHeight == b.maxBlockHeight && a.publicKey == b.publicKey
  {
    hide At, Slice, EncodeKey, AllFit;
    AtConcat(buf, offset, a.nonce + a.maxBlockHeight, EncodeKey(a.publicKey));
    AtConcat(buf, offset, b.nonce + b.maxBlockHeight, EncodeKey(b.publicKey));
    AtConcat(buf, offset, a.nonce, a.maxBlockHeight);
    AtConcat(buf, offset, b.nonce, b.maxBlockHeight);
    SameLengthSame(buf, offset, a.nonce, b.nonce);
    SameLengthSame(buf, offset + 8, a.maxBlockHeight, b.maxBlockHeight);
    KeyUnique(buf, offset + 16, a.publicKey, b.publicKey);
  }

  /** At an offset a buffer carries one DelegateAction at most. */
  lemma ReadInOneWay(buf: Bytes, offset: nat, a: DelegateAction, b: DelegateAction)
    requires Carries(buf, offset, a) && Carries(buf, offset, b)
    ensures a == b
  {
    hide At, Slice, U32, EncodeString, EncodeActions, EncodeTail, EncodeBody, AllFit;
    BodyParts(buf, offset, a);
    BodyParts(buf, offset, b);
    StringUnique(buf, offset, a.sender, b.sender);
    StringUnique(buf, offset + |EncodeString(a.sender)|, a.receiver, b.receiver);
    ReadU32At(buf, CountOffset(offset, a), |a.actions|);
    ReadU32At(buf, CountOffset(offset, a), |b.actions|);
    ActionsUnique(buf, CountOffset(offset, a) + 4, a.actions, b.actions);
    TailUnique(buf, TailOffset(offset, a), a, b);
  }

  // ----- Borsh proper ---------------------------------------------------------

  /** An optional u128 in Borsh. */
  function BorshOption(amount: Option<Bytes>): Bytes {
    match amount
    case None => [0]
    case Some(a) => [1] + a
  }

  ghost predicate BorshAllowance(a: Allowance) {
    exists amount :: EncodeAllowance(a) == BorshOption(amount)
  }

  predicate StrictAction(a: Action) {
    a.AddKey? && a.accessKey.FunctionCallAccess? && a.accessKey.allowance.Unlimited? ==> a.accessKey.allowance.tag == 0
  }

  /** Every absent allowance is written as 0. */
  predicate Strict(d: DelegateAction) {
    forall i :: 0 <= i < |d.actions| ==> StrictAction(d.actions[i])
  }

  ghost predicate BorshAction(a: Action) {
    a.AddKey? && a.accessKey.FunctionCallAccess? ==> BorshAllowance(a.accessKey.allowance)
  }

  lemma StrictIsBorsh(a: Action)
    requires ActionFits(a)
    ensures StrictAction(a) <==> BorshAction(a)
  {
    if a.AddKey? && a.accessKey.FunctionCallAccess? {
      var allowance := a.accessKey.allowance;
      if allowance.Limited? {
        assert EncodeAllowance(allowance) == BorshOption(Some(allowance.amount));
      } else if allowance.tag == 0 {
        assert EncodeAllowance(allowance) == BorshOption(None);
      } else {
        forall amount
          ensures EncodeAllowance(allowance) != BorshOption(amount)
        {
          assert EncodeAllowance(allowance)[0] == allowance.tag;
          assert BorshOption(amount)[0] <= 1;
        }
      }
    }
  }

  ghost predicate CarriesBorsh(buf: Bytes, offset: nat, d: DelegateAction) {
    Carries(buf, offset, d) && forall i :: 0 <= i < |d.actions| ==> BorshAction(d.actions[i])
  }

  /** What a buffer carries is an encoding of the standard exactly when its absent allowances are written as 0. */
  lemma StandardExactly(buf: Bytes, offset: nat, d: DelegateAction)
    requires Carries(buf, offset, d)
    ensures (exists s :: CarriesBorsh(buf, offset, s)) <==> Strict(d)
  {
    hide Carries, BorshAction, StrictAction;
    assert AllFit(d.actions) by { CarriedFits(buf, offset, d); }
    forall i | 0 <= i < |d.actions|
      ensures StrictAction(d.actions[i]) <==> BorshAction(d.actions[i])
    {
      StrictIsBorsh(d.actions[i]);
    }
    if Strict(d) {
      assert CarriesBorsh(buf, offset, d);
    }
    forall s | CarriesBorsh(buf, offset, s) ensures s == d { ReadInOneWay(buf, offset, s, d); }
  }

  lemma CarriedFits(buf: Bytes, offset: nat, d: DelegateAction)
    requires Carries(buf, offset, d)
    ensures AllFit(d.actions)
  {
  }

  /** An accepted buffer that the standard does not know: an allowance with tag 2. */
  lemma TagTwoIsAccepted(k: PublicKey, nonce: Bytes) returns (buf: Bytes)
    requires KeyFits(k) && |nonce| == 8
    ensures DelegateKey(buf, 0) == Some(k) && forall s :: !CarriesBorsh(buf, 0, s)
  {
    var d := WithTagTwo(k, nonce);
    TagTwoFits(k, nonce);
    hide EncodeBody, Fits, At, Slice, Strict, WithTagTwo;
    buf := EncodeBody(d);
    AtSlice(buf, 0, buf);
    assert Carries(buf, 0, d);
    hide Carries;
    AcceptsExactly(buf, 0, k);
    StandardExactly(buf, 0, d);
  }

  /** An action that adds a key with an absent allowance written as 2. */
  function WithTagTwo(k: PublicKey, nonce: Bytes): DelegateAction {
    DelegateAction([], [], [AddKey(k, FunctionCallAccess(nonce, Unlimited(2), [], []))], nonce, nonce, k)
  }

  lemma TagTwoFits(k: PublicKey, nonce: Bytes)
    requires KeyFits(k) && |nonce| == 8
    ensures Fits(WithTagTwo(k, nonce)) && !Strict(WithTagTwo(k, nonce)) && WithTagTwo(k, nonce).publicKey == k
  {
    var d := WithTagTwo(k, nonce);
    assert AccessKeyFits(d.actions[0].accessKey);
    hide AccessKeyFits;
    assert !StrictAction(d.actions[0]);
  }
}
