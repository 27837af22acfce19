/**
 * The two extractors that read FastAuth sign payloads, and what they promise
 * for payloads that were encoded by the book.
 */
module SignPayload {
  import opened Options
  import opened DelegateFormat
  import opened PayloadDecoder
  import opened PayloadTheorems
  import Text

  /** A JSON array of numbers as a byte buffer: every element modulo 256. */
  function ToBytes(payload: seq<int>): (buf: Bytes)
    ensures |buf| == |payload|
    ensures (forall i :: 0 <= i < |payload| ==> 0 <= payload[i] < 256) ==> buf == payload
    ensures forall i :: 0 <= i < |payload| ==> (payload[i] - buf[i]) % 256 == 0
  {
    seq(|payload|, i requires 0 <= i < |payload| => payload[i] % 256)
  }

  function ActionTagName(tag: Byte): string {
    match tag
    case 0 => "CreateAccount"
    case 1 => "DeployContract"
    case 2 => "FunctionCall"
    case 3 => "Transfer"
    case 4 => "Stake"
    case 5 => "AddKey"
    case 6 => "DeleteKey"
    case 7 => "DeleteAccount"
    case 8 => "Delegate"
    case _ => "Unknown(" + Text.Decimal(tag) + ")"
  }

  function SignActionType(payload: Option<seq<int>>): Option<string> {
    if payload.None? then None
    else
      var buf := ToBytes(payload.value);
      if |buf| < 16 then None
      else if ReadU32(buf, 0) != Some(TAG) then Some("Raw")
      else
        match ActionsHeader(buf, 4)
        case None => None
        case Some((first, count)) =>
          if count == 0 then Some("Empty")
          else if first >= |buf| then None
          else Some(ActionTagName(buf[first]))
  }

  /** The tagged reading first, then the reading of a bare DelegateAction. */
  function SignDelegateKey(payload: Option<seq<int>>): Option<PublicKey> {
    if payload.None? then None
    else
      var buf := ToBytes(payload.value);
      if |buf| < 16 then None
      else if ReadU32(buf, 0) == Some(TAG) && DelegateKey(buf, 4).Some? then DelegateKey(buf, 4)
      else DelegateKey(buf, 0)
  }

  method DecodeSignDelegatePublicKey(payload: Option<seq<int>>) returns (text: Option<string>)
    ensures text == match SignDelegateKey(payload) case None => None case Some(k) => Some(KeyText(k))
  {
    if payload == None { return None; }
    var buf := ToBytes(payload.value);
    if |buf| < 16 { return None; }
    ghost var turns;
    var discriminant := ReadU32(buf, 0);
    if discriminant == Some(TAG) {
      text, turns := TryDecodeDelegateAction(buf, 4);
      if text.Some? { return text; }
    }
    text, turns := TryDecodeDelegateAction(buf, 0);
  }

  // ----- round trips ----------------------------------------------------------

  ghost predicate IsMessage(payload: seq<int>, d: DelegateAction, rest: Bytes)
    requires Fits(d)
  {
    payload == EncodeMessage(d) + rest
  }

  ghost predicate IsBody(payload: seq<int>, d: DelegateAction, rest: Bytes)
    requires Fits(d)
  {
    payload == EncodeBody(d) + rest
  }

  lemma BytesStay(payload: Bytes)
    ensures ToBytes(payload) == payload
  {
  }

  lemma PlacedAt(a: Bytes, b: Bytes)
    ensures At(a + b, 0, a)
    ensures At(a + b, |a|, b)
  {
    AtSlice(a + b, 0, a);
    AtSlice(a + b, |a|, b);
  }

  lemma MessageParts(d: DelegateAction, rest: Bytes)
    requires Fits(d)
    ensures var buf := EncodeMessage(d) + rest;
      ReadU32(buf, 0) == Some(TAG) && At(buf, 4, EncodeBody(d)) && |buf| >= 16
  {
    hide At, Slice, U32, EncodeBody;
    var buf := EncodeMessage(d) + rest;
    PlacedAt(EncodeMessage(d), rest);
    AtConcat(buf, 0, U32(TAG), EncodeBody(d));
    ReadU32At(buf, 0, TAG);
    BodyLength(d);
  }

  lemma BodyLength(d: DelegateAction)
    requires Fits(d)
    ensures |EncodeBody(d)| >= 61
  {
    hide AllFit, EncodeActions, U32;
  }

  /** A well-formed message, with anything after it, yields its own public key. */
  lemma TaggedKeyRoundTrip(d: DelegateAction, rest: Bytes, payload: seq<int>)
    requires Fits(d) && IsMessage(payload, d, rest)
    ensures SignDelegateKey(Some(payload)) == Some(d.publicKey)
  {
    hide At, Slice, EncodeBody, EncodeMessage;
    MessageParts(d, rest);
    BytesStay(EncodeMessage(d) + rest);
    DelegateKeyAt(EncodeMessage(d) + rest, 4, d);
  }

  /** Its action type is the name of its first action, or "Empty". */
  lemma TaggedActionType(d: DelegateAction, rest: Bytes, payload: seq<int>)
    requires Fits(d) && IsMessage(payload, d, rest)
    ensures SignActionType(Some(payload)) == Some(if d.actions == [] then "Empty" else ActionName(d.actions[0]))
  {
    hide At, Slice, EncodeBody, EncodeMessage, EncodePayload, AllFit, ActionsHeader, ReadU32;
    MessageParts(d, rest);
    var buf := EncodeMessage(d) + rest;
    BytesStay(buf);
    HeaderAt(buf, 4, d);
    if d.actions != [] {
      FirstActionTag(buf, 4, d);
    }
  }

  lemma FirstActionTag(buf: Bytes, offset: nat, d: DelegateAction)
    requires Fits(d) && d.actions != [] && At(buf, offset, EncodeBody(d))
    ensures CountOffset(offset, d) + 4 < |buf|
    ensures buf[CountOffset(offset, d) + 4] == ActionTag(d.actions[0])
  {
    hide At, Slice, EncodeBody, EncodePayload, U32, EncodeTail, CountOffset;
    BodyParts(buf, offset, d);
    var first := CountOffset(offset, d) + 4;
    AtConcat(buf, first, EncodeAction(d.actions[0]), EncodeActions(d.actions[1..]));
    AtConcat(buf, first, [ActionTag(d.actions[0])], EncodePayload(d.actions[0]));
    AtByte(buf, first, ActionTag(d.actions[0]));
  }

  lemma BareParts(d: DelegateAction, rest: Bytes)
    requires Fits(d)
    ensures var buf := EncodeBody(d) + rest;
      && |buf| >= 16
      && ToBytes(buf) == buf
      && At(buf, 0, EncodeBody(d))
      && ReadU32(buf, 0) == Some(|d.sender|)
      && At(buf, 4, d.sender)
      && DelegateKey(buf, 0) == Some(d.publicKey)
  {
    hide At, Slice, EncodeBody, U32, ReadU32, DelegateKey, AllFit;
    var buf := EncodeBody(d) + rest;
    BodyLength(d);
    BytesStay(buf);
    PlacedAt(EncodeBody(d), rest);
    BodyParts(buf, 0, d);
    AtConcat(buf, 0, U32(|d.sender|), d.sender);
    ReadU32At(buf, 0, |d.sender|);
    DelegateKeyAt(buf, 0, d);
  }

  /** No DelegateAction but one with this key stands in the buffer at 4, where a tagged one would. */
  ghost predicate NoOtherAtFour(buf: Bytes, k: PublicKey) {
    forall inner :: Carries(buf, 4, inner) ==> inner.publicKey == k
  }

  /**
   * A bare DelegateAction yields its own key exactly when its sender's length does
   * not read as the tag, or the sender spells no DelegateAction of another key.
   */
  lemma BareKeyRoundTrip(d: DelegateAction, rest: Bytes, payload: seq<int>)
    requires Fits(d) && IsBody(payload, d, rest)
    ensures SignDelegateKey(Some(payload)) == Some(d.publicKey) <==>
            |d.sender| != TAG || NoOtherAtFour(EncodeBody(d) + rest, d.publicKey)
  {
    hide At, EncodeBody, ReadU32, DelegateKey, ToBytes, Carries, Fits;
    BareParts(d, rest);
    var buf := EncodeBody(d) + rest;
    forall inner | Carries(buf, 4, inner)
      ensures DelegateKey(buf, 4) == Some(inner.publicKey)
    {
      AcceptsExactly(buf, 4, inner.publicKey);
    }
    if DelegateKey(buf, 4).Some? {
      AcceptsExactly(buf, 4, DelegateKey(buf, 4).value);
    }
  }

  /** A sender of the tag's length that itself begins with a DelegateAction is read in place of the action it is part of. */
  lemma SenderIsReadInstead(d: DelegateAction, inner: DelegateAction, padding: Bytes, rest: Bytes, payload: seq<int>)
    requires Fits(d) && Fits(inner) && IsBody(payload, d, rest)
    requires |d.sender| == TAG && d.sender == EncodeBody(inner) + padding
    ensures SignDelegateKey(Some(payload)) == Some(inner.publicKey)
  {
    hide At, EncodeBody, ReadU32, DelegateKey, ToBytes, AllFit;
    BareParts(d, rest);
    var buf := EncodeBody(d) + rest;
    AtConcat(buf, 4, EncodeBody(inner), padding);
    DelegateKeyAt(buf, 4, inner);
  }

  /** A DelegateAction with a sender and a key, and nothing else. */
  function Bare(sender: Bytes, k: PublicKey): DelegateAction {
    DelegateAction(sender, [], [], Eight(), Eight(), k)
  }

  function Eight(): (b: Bytes)
    ensures |b| == 8
  {
    [0, 0, 0, 0, 0, 0, 0, 0]
  }

  function Repeated(b: Byte, n: nat): (s: Bytes)
    ensures |s| == n && forall i :: 0 <= i < n ==> s[i] == b
  {
    seq(n, _ => b)
  }

  /**
   * The input that fails: a sender as long as the tag's value which begins with an
   * encoded DelegateAction is read in place of the action it is part of.
   */
  lemma BareKeyNeedsGuard() returns (d: DelegateAction, payload: seq<int>)
    ensures Fits(d) && payload == EncodeBody(d) && |d.sender| == TAG
    ensures SignDelegateKey(Some(payload)).Some? && SignDelegateKey(Some(payload)) != Some(d.publicKey)
  {
    var mine, other := Ed25519(Repeated(1, 32)), Ed25519(Repeated(2, 32));
    assert mine.data[0] != other.data[0];
    var inner := Bare([], other);
    SmallBody(inner);
    var padding := Repeated(0, TAG - |EncodeBody(inner)|);
    d := Bare(EncodeBody(inner) + padding, mine);
    payload := EncodeBody(d);
    assert payload + [] == payload;
    hide EncodeBody;
    SenderIsReadInstead(d, inner, padding, [], payload);
  }

  lemma SmallBody(d: DelegateAction)
    requires d.sender == [] && d.receiver == [] && d.actions == [] && Fits(d) && |d.publicKey.data| == 32
    ensures |EncodeBody(d)| == 61
  {
    assert EncodeActions([]) == [];
  }

  /** What the extractor rejects, for every payload: nothing tagged at 4, nothing bare at 0. */
  lemma RejectsExactly(payload: seq<int>)
    ensures var buf := ToBytes(payload);
      SignDelegateKey(Some(payload)) == None <==>
        || |buf| < 16
        || ((forall d :: !Carries(buf, 0, d)) && (ReadU32(buf, 0) == Some(TAG) ==> forall d :: !Carries(buf, 4, d)))
  {
    hide At, DelegateKey, Fits, EncodeBody, ReadU32;
    var buf := ToBytes(payload);
    forall offset: nat, d | Carries(buf, offset, d)
      ensures DelegateKey(buf, offset).Some?
    {
      AcceptsExactly(buf, offset, d.publicKey);
    }
    forall offset: nat | DelegateKey(buf, offset).Some?
      ensures exists d :: Carries(buf, offset, d)
    {
      AcceptsExactly(buf, offset, DelegateKey(buf, offset).value);
    }
  }

  /** Sender, receiver and action count stand in the buffer at 4; the first action begins at `first`. */
  ghost predicate Headed(buf: Bytes, sender: Bytes, receiver: Bytes, count: nat, first: nat) {
    && |sender| < U32_LIMIT && |receiver| < U32_LIMIT && count < U32_LIMIT
    && first == 8 + |sender| + 4 + |receiver| + 4
    && At(buf, 4, EncodeString(sender) + (EncodeString(receiver) + U32(count)))
  }

  lemma HeadedExactly(buf: Bytes, sender: Bytes, receiver: Bytes, count: nat, first: nat)
    requires Headed(buf, sender, receiver, count, first)
    ensures ActionsHeader(buf, 4) == Some((first, count))
  {
    hide At, Slice;
    AtConcat(buf, 4, EncodeString(sender), EncodeString(receiver) + U32(count));
    var next := 4 + |EncodeString(sender)|;
    AtConcat(buf, next, EncodeString(receiver), U32(count));
    StringAt(buf, 4, sender);
    StringAt(buf, next, receiver);
    ReadU32At(buf, next + |EncodeString(receiver)|, count);
  }

  lemma HeaderIsHeaded(buf: Bytes) returns (sender: Bytes, receiver: Bytes)
    requires ActionsHeader(buf, 4).Some?
    ensures Headed(buf, sender, receiver, ActionsHeader(buf, 4).value.1, ActionsHeader(buf, 4).value.0)
  {
    hide At, Slice, ActionsHeader;
    sender, receiver := HeaderFound(buf, 4);
    var count := ActionsHeader(buf, 4).value.1;
    var next := 4 + |EncodeString(sender)|;
    AtConcat(buf, next, EncodeString(receiver), U32(count));
    AtConcat(buf, 4, EncodeString(sender), EncodeString(receiver) + U32(count));
  }

  ghost predicate SomeHeader(buf: Bytes) {
    exists sender, receiver, count, first :: Headed(buf, sender, receiver, count, first)
  }

  /**
   * The action type of every payload: none if it is short; raw if it is not tagged; and if
   * it is, by the header behind the tag and the byte where the first action begins.
   */
  lemma ActionTypeExactly(payload: seq<int>, sender: Bytes, receiver: Bytes, count: nat, first: nat)
    ensures var buf := ToBytes(payload);
      var kind := SignActionType(Some(payload));
      && SignActionType(None) == None
      && (|buf| < 16 ==> kind == None)
      && (|buf| >= 16 && !At(buf, 0, U32(TAG)) ==> kind == Some("Raw"))
      && (|buf| >= 16 && At(buf, 0, U32(TAG)) ==>
            && (!SomeHeader(buf) ==> kind == None)
            && (Headed(buf, sender, receiver, count, first) ==>
                  kind == if count == 0 then Some("Empty")
                          else if first >= |buf| then None
                          else if buf[first] == 8 then Some("Delegate")
                          else if buf[first] > 8 then Some("Unknown(" + Text.Decimal(buf[first]) + ")")
                          else Some(["CreateAccount", "DeployContract", "FunctionCall", "Transfer", "Stake", "AddKey", "DeleteKey", "DeleteAccount"][buf[first]])))
  {
    var buf := ToBytes(payload);
    ReadU32At(buf, 0, TAG);
    hide At, Slice, U32, ReadU32, ToBytes, Headed, ActionsHeader;
    if Headed(buf, sender, receiver, count, first) { HeadedExactly(buf, sender, receiver, count, first); }
    if ActionsHeader(buf, 4).Some? {
      var s, r := HeaderIsHeaded(buf);
    }
  }

  /** A message spelt out byte by byte: from "a" to "b", one transfer. */
  lemma KnownMessage(deposit: Bytes, nonce: Bytes, height: Bytes, key: Bytes)
    requires |deposit| == 16 && |nonce| == 8 && |height| == 8 && |key| == 32
    ensures var d := DelegateAction([97], [98], [Transfer(deposit)], nonce, height, Ed25519(key));
      && TAG == 1_073_742_190
      && Fits(d)
      && EncodeMessage(d) ==
         [0x6e, 0x01, 0x00, 0x40] + ([1, 0, 0, 0, 97] + ([1, 0, 0, 0, 98]
         + ([1, 0, 0, 0] + (([3] + deposit) + ((nonce + height) + ([0] + key))))))
  {
    var d := DelegateAction([97], [98], [Transfer(deposit)], nonce, height, Ed25519(key));
    KnownActions(deposit);
    U32Bytes(TAG);
    U32Bytes(1);
    hide U32, EncodeActions;
    assert EncodeTail(d) == (nonce + height) + ([0] + key);
    hide EncodeTail, EncodeKey;
    assert EncodeString(d.sender) == [1, 0, 0, 0, 97] && EncodeString(d.receiver) == [1, 0, 0, 0, 98];
    hide EncodeString;
  }

  lemma KnownActions(deposit: Bytes)
    requires |deposit| == 16
    ensures AllFit([Transfer(deposit)]) && EncodeActions([Transfer(deposit)]) == [3] + deposit
  {
    var actions := [Transfer(deposit)];
    assert actions[1..] == [] && EncodeActions(actions[1..]) == [];
    assert EncodeAction(actions[0]) == [3] + deposit;
  }

  lemma KnownStrings()
    ensures EncodeString([97]) == [1, 0, 0, 0, 97] && EncodeString([98]) == [1, 0, 0, 0, 98] && EncodeString([]) == [0, 0, 0, 0]
  {
    U32Bytes(0);
    U32Bytes(1);
  }

  lemma KnownScope()
    ensures EncodeScope([97], [[98]]) == [1, 0, 0, 0, 97] + ([1, 0, 0, 0] + ([1, 0, 0, 0, 98] + []))
  {
    KnownStrings();
    U32Bytes(1);
    hide EncodeString, U32;
    assert [[98]][1..] == [] && EncodeStrings([[98]][1..]) == [];
    assert EncodeStrings([[98]]) == [1, 0, 0, 0, 98] + [];
  }

  /** A key for calls of "b" at "a", and one for everything. */
  lemma KnownAccessKeys(nonce: Bytes, amount: Bytes, key: Bytes)
    requires |nonce| == 8 && |amount| == 16 && |key| == 64
    ensures var scoped := AddKey(Secp256k1(key), FunctionCallAccess(nonce, Limited(amount), [97], [[98]]));
      ActionFits(scoped) && EncodeAction(scoped) ==
      [5] + (([1] + key) + (nonce + ([0] + (([1] + amount) + ([1, 0, 0, 0, 97] + ([1, 0, 0, 0] + ([1, 0, 0, 0, 98] + [])))))))
    ensures var full := AddKey(Secp256k1(key), FullAccess(nonce));
      ActionFits(full) && EncodeAction(full) == [5] + (([1] + key) + (nonce + [1]))
  {
    KnownScope();
    hide EncodeScope, EncodeString, U32;
  }

  /** A call of "b" without arguments, and a stake. */
  lemma KnownCallAndStake(gas: Bytes, deposit: Bytes, key: Bytes)
    requires |gas| == 8 && |deposit| == 16 && |key| == 64
    ensures EncodeAction(FunctionCall([98], [], gas, deposit)) == [2] + ([1, 0, 0, 0, 98] + ([0, 0, 0, 0] + (gas + deposit)))
    ensures EncodeAction(Stake(deposit, Secp256k1(key))) == [4] + (deposit + ([1] + key))
  {
    KnownStrings();
    hide EncodeString, U32;
  }
}
