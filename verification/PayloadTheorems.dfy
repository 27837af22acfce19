/**
 * The skip parser against the format: it finds the end of everything the
 * encoder writes, and whatever it accepts is something the encoder writes.
 */
module PayloadTheorems {
  import opened Options
  import opened DelegateFormat
  import opened PayloadDecoder
  import Base58

  // ----- fields ---------------------------------------------------------------

  lemma U32Bytes(n: nat)
    requires n < U32_LIMIT
    ensures U32(n) == [n % 256, n / 256 % 256, n / 65536 % 256, n / 16777216]
  {
    assert LittleEndian(n / 16777216, 1) == [n / 16777216];
    assert LittleEndian(n / 65536, 2) == [n / 65536 % 256] + LittleEndian(n / 16777216, 1);
    assert LittleEndian(n / 256, 3) == [n / 256 % 256] + LittleEndian(n / 65536, 2);
  }

  lemma Base256Digits(n: nat, b0: nat, b1: nat, b2: nat, b3: nat, q1: nat, q2: nat, q3: nat)
    requires b0 < 256 && b1 < 256 && b2 < 256 && b3 < 256
    requires q1 == n / 256 && q2 == q1 / 256 && q3 == q2 / 256
    ensures n == b0 + 256 * b1 + 65536 * b2 + 16777216 * b3 <==>
            n % 256 == b0 && q1 % 256 == b1 && q2 % 256 == b2 && q3 == b3
  {
    assert n == 256 * q1 + n % 256;
    assert q1 == 256 * q2 + q1 % 256;
    assert q2 == 256 * q3 + q2 % 256;
  }

  lemma U32Unique(n: nat, b0: nat, b1: nat, b2: nat, b3: nat)
    requires b0 < 256 && b1 < 256 && b2 < 256 && b3 < 256
    requires n < U32_LIMIT
    ensures n == b0 + 256 * b1 + 65536 * b2 + 16777216 * b3 <==> U32(n) == [b0, b1, b2, b3]
  {
    U32Bytes(n);
    var q1, q2, q3 := n / 256, n / 65536, n / 16777216;
    assert q2 == q1 / 256 && q3 == q2 / 256;
    Base256Digits(n, b0, b1, b2, b3, q1, q2, q3);
  }

  lemma ReadU32At(buf: Bytes, offset: nat, n: nat)
    requires n < U32_LIMIT
    ensures ReadU32(buf, offset) == Some(n) <==> At(buf, offset, U32(n))
  {
    if offset + 4 <= |buf| {
      U32Unique(n, buf[offset], buf[offset + 1], buf[offset + 2], buf[offset + 3]);
      assert buf[offset..offset + 4] == [buf[offset], buf[offset + 1], buf[offset + 2], buf[offset + 3]];
      AtSlice(buf, offset, U32(n));
    }
  }

  lemma StringAt(buf: Bytes, offset: nat, s: Bytes)
    requires |s| < U32_LIMIT && At(buf, offset, EncodeString(s))
    ensures SkipLengthPrefixed(buf, offset) == Some(offset + |EncodeString(s)|)
  {
    AtConcat(buf, offset, U32(|s|), s);
    ReadU32At(buf, offset, |s|);
  }

  lemma StringFound(buf: Bytes, offset: nat) returns (s: Bytes)
    requires SkipLengthPrefixed(buf, offset).Some?
    ensures |s| < U32_LIMIT && At(buf, offset, EncodeString(s))
    ensures SkipLengthPrefixed(buf, offset) == Some(offset + |EncodeString(s)|)
  {
    var next := SkipLengthPrefixed(buf, offset).value;
    s := buf[offset + 4..next];
    AtSlice(buf, offset + 4, s);
    ReadU32At(buf, offset, |s|);
    AtConcat(buf, offset, U32(|s|), s);
  }

  lemma KeyAt(buf: Bytes, offset: nat, k: PublicKey)
    requires KeyFits(k) && At(buf, offset, EncodeKey(k))
    ensures SkipPublicKey(buf, offset) == Some(offset + |EncodeKey(k)|)
    ensures buf[offset] == (if k.Ed25519? then 0 else 1) && buf[offset + 1..offset + 1 + |k.data|] == k.data
  {
    AtConcat(buf, offset, [if k.Ed25519? then 0 else 1], k.data);
    AtByte(buf, offset, if k.Ed25519? then 0 else 1);
    AtSlice(buf, offset + 1, k.data);
  }

  lemma KeyFound(buf: Bytes, offset: nat) returns (k: PublicKey)
    requires SkipPublicKey(buf, offset).Some?
    ensures KeyFits(k) && At(buf, offset, EncodeKey(k))
    ensures SkipPublicKey(buf, offset) == Some(offset + |EncodeKey(k)|)
    ensures k == if buf[offset] == 0
                 then Ed25519(buf[offset + 1..SkipPublicKey(buf, offset).value])
                 else Secp256k1(buf[offset + 1..SkipPublicKey(buf, offset).value])
  {
    var data := buf[offset + 1..SkipPublicKey(buf, offset).value];
    k := if buf[offset] == 0 then Ed25519(data) else Secp256k1(data);
    AtByte(buf, offset, buf[offset]);
    AtSlice(buf, offset + 1, data);
    AtConcat(buf, offset, [buf[offset]], data);
  }

  // ----- lists of strings -----------------------------------------------------

  lemma {:induction false} StringsAt(buf: Bytes, offset: nat, strings: seq<Bytes>)
    requires AllShort(strings)
    requires At(buf, offset, EncodeStrings(strings))
    ensures AfterStrings(buf, offset, |strings|) == Some(offset + |EncodeStrings(strings)|)
    decreases |strings|
  {
    hide At, Slice, U32;
    if strings != [] {
      AtConcat(buf, offset, EncodeString(strings[0]), EncodeStrings(strings[1..]));
      StringAt(buf, offset, strings[0]);
      StringsAt(buf, offset + |EncodeString(strings[0])|, strings[1..]);
    }
  }

  lemma {:induction false} StringsFound(buf: Bytes, offset: nat, count: nat) returns (strings: seq<Bytes>)
    requires AfterStrings(buf, offset, count).Some? && offset <= |buf|
    ensures |strings| == count && AllShort(strings)
    ensures At(buf, offset, EncodeStrings(strings))
    ensures AfterStrings(buf, offset, count) == Some(offset + |EncodeStrings(strings)|)
    decreases count
  {
    hide At, Slice, U32;
    if count == 0 {
      strings := [];
    } else {
      var first := StringFound(buf, offset);
      var rest := StringsFound(buf, offset + |EncodeString(first)|, count - 1);
      strings := [first] + rest;
      assert strings[1..] == rest;
      AtConcat(buf, offset, EncodeString(first), EncodeStrings(rest));
    }
  }

  // ----- access keys ----------------------------------------------------------

  lemma ScopeParts(buf: Bytes, offset: nat, receiver: Bytes, methods: seq<Bytes>)
    requires |receiver| < U32_LIMIT && StringsFit(methods)
    ensures At(buf, offset, EncodeScope(receiver, methods)) <==>
            && At(buf, offset, EncodeString(receiver))
            && At(buf, offset + |EncodeString(receiver)|, EncodeMethods(methods))
  {
    hide At, Slice, U32;
    AtConcat(buf, offset, EncodeString(receiver), EncodeMethods(methods));
  }

  lemma MethodsAt(buf: Bytes, offset: nat, methods: seq<Bytes>)
    requires StringsFit(methods) && At(buf, offset, EncodeMethods(methods))
    ensures ReadU32(buf, offset) == Some(|methods|)
    ensures AfterStrings(buf, offset + 4, |methods|) == Some(offset + |EncodeMethods(methods)|)
  {
    hide At, Slice, U32;
    AtConcat(buf, offset, U32(|methods|), EncodeStrings(methods));
    ReadU32At(buf, offset, |methods|);
    StringsAt(buf, offset + 4, methods);
  }

  lemma MethodsFound(buf: Bytes, offset: nat) returns (methods: seq<Bytes>)
    requires ReadU32(buf, offset).Some? && AfterStrings(buf, offset + 4, ReadU32(buf, offset).value).Some?
    ensures StringsFit(methods) && At(buf, offset, EncodeMethods(methods))
    ensures AfterStrings(buf, offset + 4, ReadU32(buf, offset).value) == Some(offset + |EncodeMethods(methods)|)
  {
    hide At, Slice, U32;
    var count := ReadU32(buf, offset).value;
    ReadU32At(buf, offset, count);
    methods := StringsFound(buf, offset + 4, count);
    AtConcat(buf, offset, U32(count), EncodeStrings(methods));
  }

  lemma ScopeAt(buf: Bytes, offset: nat, receiver: Bytes, methods: seq<Bytes>)
    requires |receiver| < U32_LIMIT && StringsFit(methods) && At(buf, offset, EncodeScope(receiver, methods))
    ensures AfterScope(buf, offset) == Some(offset + |EncodeScope(receiver, methods)|)
  {
    hide At, Slice, U32;
    ScopeParts(buf, offset, receiver, methods);
    StringAt(buf, offset, receiver);
    MethodsAt(buf, offset + |EncodeString(receiver)|, methods);
  }

  lemma ScopeFound(buf: Bytes, offset: nat) returns (receiver: Bytes, methods: seq<Bytes>)
    requires AfterScope(buf, offset).Some?
    ensures |receiver| < U32_LIMIT && StringsFit(methods) && At(buf, offset, EncodeScope(receiver, methods))
    ensures AfterScope(buf, offset) == Some(offset + |EncodeScope(receiver, methods)|)
  {
    hide At, Slice, U32;
    receiver := StringFound(buf, offset);
    methods := MethodsFound(buf, offset + |EncodeString(receiver)|);
    ScopeParts(buf, offset, receiver, methods);
  }

  lemma CallAccessParts(buf: Bytes, offset: nat, k: AccessKey)
    requires AccessKeyFits(k) && k.FunctionCallAccess?
    ensures At(buf, offset, EncodeAccessKey(k)) <==>
            && At(buf, offset, k.nonce)
            && At(buf, offset + 8, [0])
            && At(buf, offset + 9, EncodeAllowance(k.allowance))
            && At(buf, offset + 9 + |EncodeAllowance(k.allowance)|, EncodeScope(k.receiver, k.methods))
  {
    hide At, Slice, U32;
    var scope := EncodeScope(k.receiver, k.methods);
    AtConcat(buf, offset, k.nonce, [0] + (EncodeAllowance(k.allowance) + scope));
    AtConcat(buf, offset + 8, [0], EncodeAllowance(k.allowance) + scope);
    AtConcat(buf, offset + 9, EncodeAllowance(k.allowance), scope);
  }

  lemma AccessKeyAt(buf: Bytes, offset: nat, k: AccessKey)
    requires AccessKeyFits(k) && At(buf, offset, EncodeAccessKey(k))
    ensures AfterAccessKey(buf, offset) == Some(offset + |EncodeAccessKey(k)|)
  {
    if k.FullAccess? {
      FullAccessAt(buf, offset, k);
    } else {
      CallAccessAt(buf, offset, k);
    }
    hide At, Slice, U32, EncodeAccessKey, AfterAccessKey, AccessKeyFits;
  }

  lemma FullAccessAt(buf: Bytes, offset: nat, k: AccessKey)
    requires AccessKeyFits(k) && k.FullAccess? && At(buf, offset, EncodeAccessKey(k))
    ensures AfterAccessKey(buf, offset) == Some(offset + |EncodeAccessKey(k)|)
  {
    hide At, Slice, AfterScope;
    AtConcat(buf, offset, k.nonce, [1]);
    AtByte(buf, offset + 8, 1);
  }

  lemma CallAccessAt(buf: Bytes, offset: nat, k: AccessKey)
    requires AccessKeyFits(k) && k.FunctionCallAccess? && At(buf, offset, EncodeAccessKey(k))
    ensures AfterAccessKey(buf, offset) == Some(offset + |EncodeAccessKey(k)|)
  {
    hide At, Slice, U32, EncodeString, EncodeMethods, EncodeScope, EncodeAllowance, AfterScope, StringsFit;
    CallAccessParts(buf, offset, k);
    AtByte(buf, offset + 8, 0);
    AllowanceAt(buf, offset + 9, k.allowance);
    ScopeAt(buf, offset + 9 + |EncodeAllowance(k.allowance)|, k.receiver, k.methods);
  }

  lemma AllowanceAt(buf: Bytes, offset: nat, a: Allowance)
    requires if a.Unlimited? then a.tag != 1 else |a.amount| == 16
    requires At(buf, offset, EncodeAllowance(a))
    ensures offset < |buf| && |EncodeAllowance(a)| == if buf[offset] == 1 then 17 else 1
  {
    if a.Limited? {
      AtConcat(buf, offset, [1], a.amount);
      AtByte(buf, offset, 1);
    } else {
      AtByte(buf, offset, a.tag);
    }
  }

  lemma AllowanceFound(buf: Bytes, offset: nat) returns (a: Allowance)
    requires offset < |buf| && (buf[offset] == 1 ==> offset + 17 <= |buf|)
    ensures At(buf, offset, EncodeAllowance(a))
    ensures |EncodeAllowance(a)| == if buf[offset] == 1 then 17 else 1
    ensures if a.Unlimited? then a.tag != 1 else |a.amount| == 16
  {
    AtByte(buf, offset, buf[offset]);
    if buf[offset] == 1 {
      a := Limited(buf[offset + 1..offset + 17]);
      AtSlice(buf, offset + 1, a.amount);
      AtConcat(buf, offset, [1], a.amount);
    } else {
      a := Unlimited(buf[offset]);
    }
  }

  lemma AccessKeyFound(buf: Bytes, offset: nat) returns (k: AccessKey)
    requires AfterAccessKey(buf, offset).Some?
    ensures AccessKeyFits(k) && At(buf, offset, EncodeAccessKey(k))
    ensures AfterAccessKey(buf, offset) == Some(offset + |EncodeAccessKey(k)|)
  {
    hide At, Slice, U32, EncodeString, EncodeScope, AfterScope, StringsFit;
    var nonce := buf[offset..offset + 8];
    AtSlice(buf, offset, nonce);
    AtByte(buf, offset + 8, buf[offset + 8]);
    if buf[offset + 8] == 1 {
      k := FullAccess(nonce);
      AtConcat(buf, offset, nonce, [1]);
    } else {
      var allowance := AllowanceFound(buf, offset + 9);
      var receiver, methods := ScopeFound(buf, offset + 9 + |EncodeAllowance(allowance)|);
      k := FunctionCallAccess(nonce, allowance, receiver, methods);
      CallAccessParts(buf, offset, k);
    }
  }

  // ----- actions --------------------------------------------------------------

  lemma CallParts(buf: Bytes, body: nat, a: Action)
    requires a.FunctionCall? && ActionFits(a)
    ensures At(buf, body, EncodePayload(a)) <==>
            && At(buf, body, EncodeString(a.methodName))
            && At(buf, body + |EncodeString(a.methodName)|, EncodeString(a.args))
            && At(buf, body + |EncodeString(a.methodName)| + |EncodeString(a.args)|, a.gas + a.deposit)
  {
    hide At, Slice, U32;
    AtConcat(buf, body, EncodeString(a.methodName), EncodeString(a.args) + (a.gas + a.deposit));
    AtConcat(buf, body + |EncodeString(a.methodName)|, EncodeString(a.args), a.gas + a.deposit);
  }

  lemma CallAt(buf: Bytes, body: nat, a: Action)
    requires a.FunctionCall? && ActionFits(a) && At(buf, body, EncodePayload(a))
    ensures AfterCall(buf, body) == Some(body + |EncodePayload(a)|)
  {
    hide At, Slice, U32;
    CallParts(buf, body, a);
    StringAt(buf, body, a.methodName);
    StringAt(buf, body + |EncodeString(a.methodName)|, a.args);
  }

  lemma CallFound(buf: Bytes, body: nat) returns (a: Action)
    requires AfterCall(buf, body).Some?
    ensures a.FunctionCall? && ActionFits(a) && At(buf, body, EncodePayload(a))
    ensures AfterCall(buf, body) == Some(body + |EncodePayload(a)|)
  {
    hide At, Slice, U32;
    var m := StringFound(buf, body);
    var args := StringFound(buf, body + |EncodeString(m)|);
    var at := body + |EncodeString(m)| + |EncodeString(args)|;
    a := FunctionCall(m, args, buf[at..at + 8], buf[at + 8..at + 24]);
    AtSlice(buf, at, a.gas);
    AtSlice(buf, at + 8, a.deposit);
    AtConcat(buf, at, a.gas, a.deposit);
    CallParts(buf, body, a);
  }

  lemma StakeAt(buf: Bytes, body: nat, stake: Bytes, k: PublicKey)
    requires |stake| == 16 && KeyFits(k) && At(buf, body, stake + EncodeKey(k))
    ensures SkipPublicKey(buf, body + 16) == Some(body + |stake + EncodeKey(k)|)
  {
    hide At, Slice, U32;
    AtConcat(buf, body, stake, EncodeKey(k));
    KeyAt(buf, body + 16, k);
  }

  lemma StakeFound(buf: Bytes, body: nat) returns (stake: Bytes, k: PublicKey)
    requires SkipPublicKey(buf, body + 16).Some?
    ensures |stake| == 16 && KeyFits(k) && At(buf, body, stake + EncodeKey(k))
    ensures SkipPublicKey(buf, body + 16) == Some(body + |stake + EncodeKey(k)|)
  {
    hide At, Slice, U32;
    k := KeyFound(buf, body + 16);
    stake := buf[body..body + 16];
    AtSlice(buf, body, stake);
    AtConcat(buf, body, stake, EncodeKey(k));
  }

  lemma AddKeyAt(buf: Bytes, body: nat, k: PublicKey, access: AccessKey)
    requires KeyFits(k) && AccessKeyFits(access) && At(buf, body, EncodeKey(k) + EncodeAccessKey(access))
    ensures var next := SkipPublicKey(buf, body);
      next.Some? && AfterAccessKey(buf, next.value) == Some(body + |EncodeKey(k) + EncodeAccessKey(access)|)
  {
    hide At, Slice, U32;
    AtConcat(buf, body, EncodeKey(k), EncodeAccessKey(access));
    KeyAt(buf, body, k);
    AccessKeyAt(buf, body + |EncodeKey(k)|, access);
  }

  lemma AddKeyFound(buf: Bytes, body: nat) returns (k: PublicKey, access: AccessKey)
    requires SkipPublicKey(buf, body).Some? && AfterAccessKey(buf, SkipPublicKey(buf, body).value).Some?
    ensures KeyFits(k) && AccessKeyFits(access) && At(buf, body, EncodeKey(k) + EncodeAccessKey(access))
    ensures AfterAccessKey(buf, SkipPublicKey(buf, body).value) == Some(body + |EncodeKey(k) + EncodeAccessKey(access)|)
  {
    hide At, Slice, U32;
    k := KeyFound(buf, body);
    access := AccessKeyFound(buf, body + |EncodeKey(k)|);
    AtConcat(buf, body, EncodeKey(k), EncodeAccessKey(access));
  }

  lemma PayloadAt(buf: Bytes, body: nat, a: Action)
    requires ActionFits(a) && At(buf, body, EncodePayload(a))
    ensures AfterPayload(buf, ActionTag(a), body) == Some(body + |EncodePayload(a)|)
  {
    hide At, Slice, U32, EncodeString, EncodeKey, EncodeAccessKey, SkipPublicKey, AfterAccessKey, SkipLengthPrefixed, AfterCall, AccessKeyFits, KeyFits;
    match a
    case FunctionCall(_, _, _, _) => CallAt(buf, body, a);
    case Stake(stake, k) => StakeAt(buf, body, stake, k);
    case AddKey(k, access) => AddKeyAt(buf, body, k, access);
    case _ => FlatPayloadAt(buf, body, a);
  }

  lemma FlatPayloadAt(buf: Bytes, body: nat, a: Action)
    requires ActionFits(a) && At(buf, body, EncodePayload(a))
    requires !a.FunctionCall? && !a.Stake? && !a.AddKey?
    ensures AfterPayload(buf, ActionTag(a), body) == Some(body + |EncodePayload(a)|)
  {
    hide At, Slice, U32;
    match a
    case CreateAccount =>
    case DeployContract(code) => StringAt(buf, body, code);
    case Transfer(_) =>
    case DeleteKey(k) => KeyAt(buf, body, k);
    case DeleteAccount(b) => StringAt(buf, body, b);
  }

  lemma PayloadFound(buf: Bytes, tag: Byte, body: nat) returns (a: Action)
    requires body <= |buf| && AfterPayload(buf, tag, body).Some?
    ensures ActionFits(a) && ActionTag(a) == tag && At(buf, body, EncodePayload(a))
    ensures AfterPayload(buf, tag, body) == Some(body + |EncodePayload(a)|)
  {
    hide At, Slice, U32, EncodeString, EncodeKey, EncodeAccessKey, AfterAccessKey, SkipLengthPrefixed, AfterCall, AccessKeyFits, KeyFits;
    if tag == 2 {
      a := CallFound(buf, body);
    } else if tag == 4 {
      var stake, k := StakeFound(buf, body);
      a := Stake(stake, k);
    } else if tag == 5 {
      var k, access := AddKeyFound(buf, body);
      a := AddKey(k, access);
    } else {
      a := FlatPayloadFound(buf, tag, body);
    }
  }

  lemma FlatPayloadFound(buf: Bytes, tag: Byte, body: nat) returns (a: Action)
    requires body <= |buf| && AfterPayload(buf, tag, body).Some? && tag != 2 && tag != 4 && tag != 5
    ensures ActionFits(a) && ActionTag(a) == tag && At(buf, body, EncodePayload(a))
    ensures AfterPayload(buf, tag, body) == Some(body + |EncodePayload(a)|)
  {
    hide At, Slice, U32;
    if tag == 0 {
      a := CreateAccount;
    } else if tag == 3 {
      a := Transfer(buf[body..body + 16]);
      AtSlice(buf, body, a.deposit);
    } else if tag == 6 {
      var k := KeyFound(buf, body);
      a := DeleteKey(k);
    } else {
      var s := StringFound(buf, body);
      a := if tag == 1 then DeployContract(s) else DeleteAccount(s);
    }
  }

  lemma ActionAt(buf: Bytes, offset: nat, a: Action)
    requires ActionFits(a) && At(buf, offset, EncodeAction(a))
    ensures AfterAction(buf, offset) == Some(offset + |EncodeAction(a)|)
  {
    hide At, Slice, U32;
    AtConcat(buf, offset, [ActionTag(a)], EncodePayload(a));
    AtByte(buf, offset, ActionTag(a));
    PayloadAt(buf, offset + 1, a);
  }

  lemma ActionFound(buf: Bytes, offset: nat) returns (a: Action)
    requires AfterAction(buf, offset).Some?
    ensures ActionFits(a) && At(buf, offset, EncodeAction(a))
    ensures AfterAction(buf, offset) == Some(offset + |EncodeAction(a)|)
  {
    hide At, Slice, U32;
    a := PayloadFound(buf, buf[offset], offset + 1);
    AtByte(buf, offset, buf[offset]);
    AtConcat(buf, offset, [ActionTag(a)], EncodePayload(a));
  }

  lemma {:induction false} ActionsAt(buf: Bytes, offset: nat, actions: seq<Action>)
    requires AllFit(actions)
    requires At(buf, offset, EncodeActions(actions))
    ensures AfterActions(buf, offset, |actions|) == Some(offset + |EncodeActions(actions)|)
    decreases |actions|
  {
    hide At, Slice, EncodeAction, AfterAction, ActionFits;
    if actions != [] {
      AtConcat(buf, offset, EncodeAction(actions[0]), EncodeActions(actions[1..]));
      ActionAt(buf, offset, actions[0]);
      ActionsAt(buf, offset + |EncodeAction(actions[0])|, actions[1..]);
    }
  }

  lemma {:induction false} ActionsFound(buf: Bytes, offset: nat, count: nat) returns (actions: seq<Action>)
    requires AfterActions(buf, offset, count).Some? && offset <= |buf|
    ensures |actions| == count && AllFit(actions)
    ensures At(buf, offset, EncodeActions(actions))
    ensures AfterActions(buf, offset, count) == Some(offset + |EncodeActions(actions)|)
    decreases count
  {
    hide At, Slice, EncodeAction, AfterAction, ActionFits;
    if count == 0 {
      actions := [];
    } else {
      var first := ActionFound(buf, offset);
      var rest := ActionsFound(buf, offset + |EncodeAction(first)|, count - 1);
      actions := [first] + rest;
      ActionsCons(buf, offset, first, rest);
    }
  }

  lemma ActionsCons(buf: Bytes, offset: nat, first: Action, rest: seq<Action>)
    requires ActionFits(first) && AllFit(rest)
    ensures AllFit([first] + rest)
    ensures |EncodeActions([first] + rest)| == |EncodeAction(first)| + |EncodeActions(rest)|
    ensures At(buf, offset, EncodeActions([first] + rest)) <==>
            At(buf, offset, EncodeAction(first)) && At(buf, offset + |EncodeAction(first)|, EncodeActions(rest))
  {
    hide At, Slice, U32;
    assert ([first] + rest)[1..] == rest;
    AtConcat(buf, offset, EncodeAction(first), EncodeActions(rest));
  }

  // ----- the DelegateAction ---------------------------------------------------

  lemma BodyParts(buf: Bytes, offset: nat, d: DelegateAction)
    requires Fits(d)
    ensures At(buf, offset, EncodeBody(d)) <==>
            && At(buf, offset, EncodeString(d.sender))
            && At(buf, offset + |EncodeString(d.sender)|, EncodeString(d.receiver))
            && At(buf, CountOffset(offset, d), U32(|d.actions|))
            && At(buf, CountOffset(offset, d) + 4, EncodeActions(d.actions))
            && At(buf, TailOffset(offset, d), EncodeTail(d))
  {
    hide At, Slice, U32, EncodeString, EncodeActions, AllFit, EncodeTail;
    var count, tail := CountOffset(offset, d), EncodeTail(d);
    AtConcat(buf, count + 4, EncodeActions(d.actions), tail);
    AtConcat(buf, count, U32(|d.actions|), EncodeActions(d.actions) + tail);
    AtConcat(buf, offset + |EncodeString(d.sender)|, EncodeString(d.receiver),
             U32(|d.actions|) + (EncodeActions(d.actions) + tail));
    AtConcat(buf, offset, EncodeString(d.sender),
             EncodeString(d.receiver) + (U32(|d.actions|) + (EncodeActions(d.actions) + tail)));
  }

  lemma TailAt(buf: Bytes, offset: nat, d: DelegateAction)
    requires Fits(d) && At(buf, offset, EncodeTail(d))
    ensures TailKey(buf, offset) == Some(d.publicKey)
  {
    hide At, Slice, U32;
    AtConcat(buf, offset, d.nonce + d.maxBlockHeight, EncodeKey(d.publicKey));
    KeyAt(buf, offset + 16, d.publicKey);
  }

  lemma HeaderAt(buf: Bytes, offset: nat, d: DelegateAction)
    requires Fits(d) && At(buf, offset, EncodeBody(d))
    ensures ActionsHeader(buf, offset) == Some((CountOffset(offset, d) + 4, |d.actions|))
  {
    hide At, Slice, U32, AllFit, EncodeActions, EncodeTail;
    BodyParts(buf, offset, d);
    StringAt(buf, offset, d.sender);
    StringAt(buf, offset + |EncodeString(d.sender)|, d.receiver);
    ReadU32At(buf, CountOffset(offset, d), |d.actions|);
  }

  /** Whatever surrounds it, an encoded DelegateAction yields its own key. */
  lemma DelegateKeyAt(buf: Bytes, offset: nat, d: DelegateAction)
    requires Fits(d) && At(buf, offset, EncodeBody(d))
    ensures DelegateKey(buf, offset) == Some(d.publicKey)
  {
    hide At, Slice, U32, AllFit, EncodeActions, EncodeTail, EncodeString, EncodeBody, ActionsHeader, TailKey, AfterActions;
    HeaderAt(buf, offset, d);
    BodyParts(buf, offset, d);
    ActionsAt(buf, CountOffset(offset, d) + 4, d.actions);
    TailAt(buf, TailOffset(offset, d), d);
  }

  lemma TailFound(buf: Bytes, offset: nat) returns (nonce: Bytes, height: Bytes, k: PublicKey)
    requires TailKey(buf, offset).Some?
    ensures |nonce| == |height| == 8 && KeyFits(k) && TailKey(buf, offset) == Some(k)
    ensures At(buf, offset, (nonce + height) + EncodeKey(k))
  {
    hide At, Slice, U32;
    nonce, height := buf[offset..offset + 8], buf[offset + 8..offset + 16];
    k := KeyFound(buf, offset + 16);
    AtSlice(buf, offset, nonce);
    AtSlice(buf, offset + 8, height);
    AtConcat(buf, offset, nonce, height);
    AtConcat(buf, offset, nonce + height, EncodeKey(k));
  }

  lemma HeaderFound(buf: Bytes, offset: nat) returns (sender: Bytes, receiver: Bytes)
    requires ActionsHeader(buf, offset).Some?
    ensures |sender| < U32_LIMIT && |receiver| < U32_LIMIT
    ensures At(buf, offset, EncodeString(sender))
    ensures At(buf, offset + |EncodeString(sender)|, EncodeString(receiver))
    ensures var (first, count) := ActionsHeader(buf, offset).value;
      && count < U32_LIMIT
      && first == offset + |EncodeString(sender)| + |EncodeString(receiver)| + 4
      && At(buf, first - 4, U32(count))
  {
    hide At, Slice, U32;
    sender := StringFound(buf, offset);
    receiver := StringFound(buf, offset + |EncodeString(sender)|);
    var count := offset + |EncodeString(sender)| + |EncodeString(receiver)|;
    ReadU32At(buf, count, ReadU32(buf, count).value);
  }

  /** Whatever is accepted is an encoded DelegateAction, followed by anything. */
  lemma DelegateFound(buf: Bytes, offset: nat) returns (d: DelegateAction)
    requires DelegateKey(buf, offset).Some?
    ensures Fits(d) && At(buf, offset, EncodeBody(d))
    ensures DelegateKey(buf, offset) == Some(d.publicKey)
  {
    hide At, Slice, U32, AllFit, EncodeActions, EncodeString, EncodeBody, EncodeKey, SkipLengthPrefixed, ReadU32, SkipPublicKey, AfterActions;
    var sender, receiver := HeaderFound(buf, offset);
    var (first, count) := ActionsHeader(buf, offset).value;
    var actions := ActionsFound(buf, first, count);
    var nonce, height, k := TailFound(buf, AfterActions(buf, first, count).value);
    d := DelegateAction(sender, receiver, actions, nonce, height, k);
    assert CountOffset(offset, d) == first - 4;
    BodyParts(buf, offset, d);
  }

  ghost predicate Carries(buf: Bytes, offset: nat, d: DelegateAction) {
    Fits(d) && At(buf, offset, EncodeBody(d))
  }

  /** The reader accepts exactly the buffers that hold an encoded DelegateAction at the offset. */
  lemma AcceptsExactly(buf: Bytes, offset: nat, k: PublicKey)
    ensures DelegateKey(buf, offset) == Some(k) <==> exists d :: Carries(buf, offset, d) && d.publicKey == k
  {
    if DelegateKey(buf, offset) == Some(k) {
      var d := DelegateFound(buf, offset);
      assert Carries(buf, offset, d);
    }
    forall d | Carries(buf, offset, d)
      ensures DelegateKey(buf, offset) == Some(d.publicKey)
    {
      DelegateKeyAt(buf, offset, d);
    }
  }
}
