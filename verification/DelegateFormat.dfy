/**
 * The signable message of NEP-366 ("Specification"): a u32 tag, 2^30 + 366 by
 * NEP-461 ("Specification"), then the Borsh encoding of a DelegateAction.
 * This module is the format itself, written as an encoder. Fixed-width
 * integers (u64 nonces, u128 amounts) are carried as their bytes.
 */
module DelegateFormat {
  import opened Options
  import Base58

  type Byte = Base58.Byte
  type Bytes = seq<Byte>

  const TAG: nat := 0x4000_0000 + 366

  datatype PublicKey = Ed25519(data: Bytes) | Secp256k1(data: Bytes)

  /** Borsh writes an absent allowance as tag 0; the tag is kept to say what a reader lets through. */
  datatype Allowance = Unlimited(tag: Byte) | Limited(amount: Bytes)

  datatype AccessKey =
    | FullAccess(nonce: Bytes)
    | FunctionCallAccess(nonce: Bytes, allowance: Allowance, receiver: Bytes, methods: seq<Bytes>)

  datatype Action =
    | CreateAccount
    | DeployContract(code: Bytes)
    | FunctionCall(methodName: Bytes, args: Bytes, gas: Bytes, deposit: Bytes)
    | Transfer(deposit: Bytes)
    | Stake(stake: Bytes, publicKey: PublicKey)
    | AddKey(publicKey: PublicKey, accessKey: AccessKey)
    | DeleteKey(publicKey: PublicKey)
    | DeleteAccount(beneficiary: Bytes)

  datatype DelegateAction = DelegateAction(
    sender: Bytes, receiver: Bytes, actions: seq<Action>,
    nonce: Bytes, maxBlockHeight: Bytes, publicKey: PublicKey)

  const U32_LIMIT: nat := 0x1_0000_0000

  // ----- what may be written --------------------------------------------------

  predicate KeyFits(k: PublicKey) {
    |k.data| == if k.Ed25519? then 32 else 64
  }

  /** An access key as the reader takes it: any tag but 1 passes for "no allowance". */
  predicate AccessKeyFits(k: AccessKey) {
    && |k.nonce| == 8
    && (k.FunctionCallAccess? ==>
          && (k.allowance.Unlimited? ==> k.allowance.tag != 1)
          && (k.allowance.Limited? ==> |k.allowance.amount| == 16)
          && |k.receiver| < U32_LIMIT
          && StringsFit(k.methods))
  }

  predicate StringsFit(strings: seq<Bytes>) {
    |strings| < U32_LIMIT && AllShort(strings)
  }

  predicate AllShort(strings: seq<Bytes>) {
    forall i :: 0 <= i < |strings| ==> |strings[i]| < U32_LIMIT
  }

  predicate ActionFits(a: Action) {
    match a
    case CreateAccount => true
    case DeployContract(code) => |code| < U32_LIMIT
    case FunctionCall(m, args, gas, deposit) =>
      |m| < U32_LIMIT && |args| < U32_LIMIT && |gas| == 8 && |deposit| == 16
    case Transfer(deposit) => |deposit| == 16
    case Stake(stake, k) => |stake| == 16 && KeyFits(k)
    case AddKey(k, access) => KeyFits(k) && AccessKeyFits(access)
    case DeleteKey(k) => KeyFits(k)
    case DeleteAccount(b) => |b| < U32_LIMIT
  }

  predicate AllFit(actions: seq<Action>) {
    forall i :: 0 <= i < |actions| ==> ActionFits(actions[i])
  }

  predicate Fits(d: DelegateAction) {
    && |d.sender| < U32_LIMIT && |d.receiver| < U32_LIMIT
    && |d.actions| < U32_LIMIT
    && AllFit(d.actions)
    && |d.nonce| == 8 && |d.maxBlockHeight| == 8
    && KeyFits(d.publicKey)
  }

  // ----- the encoder ----------------------------------------------------------

  /** The low `width` bytes of `n`, least significant first. */
  function LittleEndian(n: nat, width: nat): (b: Bytes)
    ensures |b| == width
  {
    if width == 0 then [] else [n % 256] + LittleEndian(n / 256, width - 1)
  }

  function U32(n: nat): (b: Bytes)
    requires n < U32_LIMIT
    ensures |b| == 4
  {
    LittleEndian(n, 4)
  }

  function EncodeString(s: Bytes): Bytes
    requires |s| < U32_LIMIT
  {
    U32(|s|) + s
  }

  function EncodeStrings(strings: seq<Bytes>): Bytes
    requires AllShort(strings)
  {
    if strings == [] then [] else EncodeString(strings[0]) + EncodeStrings(strings[1..])
  }

  function EncodeKey(k: PublicKey): Bytes {
    (if k.Ed25519? then [0] else [1]) + k.data
  }

  function EncodeAccessKey(k: AccessKey): Bytes
    requires AccessKeyFits(k)
  {
    match k
    case FullAccess(nonce) => nonce + [1]
    case FunctionCallAccess(nonce, allowance, receiver, methods) =>
      nonce + ([0] + (EncodeAllowance(allowance) + EncodeScope(receiver, methods)))
  }

  /** The account a key may call, and the methods it may call there. */
  function EncodeScope(receiver: Bytes, methods: seq<Bytes>): Bytes
    requires |receiver| < U32_LIMIT && StringsFit(methods)
  {
    EncodeString(receiver) + EncodeMethods(methods)
  }

  function EncodeMethods(methods: seq<Bytes>): Bytes
    requires StringsFit(methods)
  {
    U32(|methods|) + EncodeStrings(methods)
  }

  function EncodeAllowance(a: Allowance): Bytes {
    if a.Unlimited? then [a.tag] else [1] + a.amount
  }

  function ActionTag(a: Action): Byte {
    match a
    case CreateAccount => 0
    case DeployContract(_) => 1
    case FunctionCall(_, _, _, _) => 2
    case Transfer(_) => 3
    case Stake(_, _) => 4
    case AddKey(_, _) => 5
    case DeleteKey(_) => 6
    case DeleteAccount(_) => 7
  }

  function ActionName(a: Action): string {
    match a
    case CreateAccount => "CreateAccount"
    case DeployContract(_) => "DeployContract"
    case FunctionCall(_, _, _, _) => "FunctionCall"
    case Transfer(_) => "Transfer"
    case Stake(_, _) => "Stake"
    case AddKey(_, _) => "AddKey"
    case DeleteKey(_) => "DeleteKey"
    case DeleteAccount(_) => "DeleteAccount"
  }

  function EncodePayload(a: Action): Bytes
    requires ActionFits(a)
  {
    match a
    case CreateAccount => []
    case DeployContract(code) => EncodeString(code)
    case FunctionCall(m, args, gas, deposit) => EncodeString(m) + (EncodeString(args) + (gas + deposit))
    case Transfer(deposit) => deposit
    case Stake(stake, k) => stake + EncodeKey(k)
    case AddKey(k, access) => EncodeKey(k) + EncodeAccessKey(access)
    case DeleteKey(k) => EncodeKey(k)
    case DeleteAccount(b) => EncodeString(b)
  }

  function EncodeAction(a: Action): (b: Bytes)
    requires ActionFits(a)
    ensures |b| >= 1
  {
    [ActionTag(a)] + EncodePayload(a)
  }

  function EncodeActions(actions: seq<Action>): Bytes
    requires AllFit(actions)
  {
    if actions == [] then [] else EncodeAction(actions[0]) + EncodeActions(actions[1..])
  }

  function EncodeTail(d: DelegateAction): Bytes {
    (d.nonce + d.maxBlockHeight) + EncodeKey(d.publicKey)
  }

  /** Where the action count and the two u64 fields of a body at `offset` stand. */
  function CountOffset(offset: nat, d: DelegateAction): nat
    requires Fits(d)
  {
    offset + |EncodeString(d.sender)| + |EncodeString(d.receiver)|
  }

  function TailOffset(offset: nat, d: DelegateAction): nat
    requires Fits(d)
  {
    CountOffset(offset, d) + 4 + |EncodeActions(d.actions)|
  }

  /** The DelegateAction without the tag. */
  function EncodeBody(d: DelegateAction): Bytes
    requires Fits(d)
  {
    EncodeString(d.sender) + (EncodeString(d.receiver)
    + (U32(|d.actions|) + (EncodeActions(d.actions) + EncodeTail(d))))
  }

  function EncodeMessage(d: DelegateAction): Bytes
    requires Fits(d)
  {
    U32(TAG) + EncodeBody(d)
  }

  /** How a key is written in text: the curve, then Base58 of the key's bytes. */
  function KeyText(k: PublicKey): string {
    (if k.Ed25519? then "ed25519:" else "secp256k1:") + Base58.Encoding(k.data)
  }

  /** The text names exactly one key. */
  lemma KeyTextInjective(a: PublicKey, b: PublicKey)
    requires KeyText(a) == KeyText(b)
    ensures a == b
  {
    assert KeyText(a)[0] == if a.Ed25519? then 'e' else 's';
    var n := if a.Ed25519? then 8 else 10;
    assert KeyText(a)[n..] == Base58.Encoding(a.data);
    assert KeyText(b)[n..] == Base58.Encoding(b.data);
    Base58.EncodingInjective(a.data, b.data);
  }

  /** A text stands for a key exactly when it names the curve and the rest decodes to the key's bytes. */
  lemma KeyTextExactly(k: PublicKey, rest: string)
    ensures KeyText(k) == (if k.Ed25519? then "ed25519:" else "secp256k1:") + rest <==> Base58.Decode(rest) == Some(k.data)
  {
    var prefix := if k.Ed25519? then "ed25519:" else "secp256k1:";
    Base58.RoundTrip(k.data);
    if Base58.Decode(rest) == Some(k.data) { Base58.TextRoundTrip(rest); }
    if KeyText(k) == prefix + rest {
      assert KeyText(k)[|prefix|..] == Base58.Encoding(k.data) && (prefix + rest)[|prefix|..] == rest;
    }
  }

  // ----- chunks of a buffer ---------------------------------------------------

  /** The bytes of the buffer from `offset` on; `n` of them. */
  ghost function Slice(buf: Bytes, offset: nat, n: nat): (s: Bytes)
    requires offset + n <= |buf|
    ensures |s| == n
  {
    if n == 0 then [] else Slice(buf, offset, n - 1) + [buf[offset + n - 1]]
  }

  /** `chunk` stands in the buffer at `offset`. */
  ghost predicate At(buf: Bytes, offset: nat, chunk: Bytes)
    ensures At(buf, offset, chunk) ==> offset + |chunk| <= |buf|
    ensures chunk == [] && offset <= |buf| ==> At(buf, offset, chunk)
  {
    offset + |chunk| <= |buf| && Slice(buf, offset, |chunk|) == chunk
  }

  lemma {:induction false} SliceIsSlice(buf: Bytes, offset: nat, n: nat)
    requires offset + n <= |buf|
    ensures Slice(buf, offset, n) == buf[offset..offset + n]
    decreases n
  {
    if n > 0 {
      SliceIsSlice(buf, offset, n - 1);
      assert buf[offset..offset + n] == buf[offset..offset + (n - 1)] + [buf[offset + (n - 1)]];
    }
  }

  lemma AtSlice(buf: Bytes, offset: nat, chunk: Bytes)
    ensures At(buf, offset, chunk) <==> offset + |chunk| <= |buf| && buf[offset..offset + |chunk|] == chunk
  {
    if offset + |chunk| <= |buf| {
      SliceIsSlice(buf, offset, |chunk|);
    }
  }

  lemma AtConcat(buf: Bytes, offset: nat, a: Bytes, b: Bytes)
    ensures At(buf, offset, a + b) <==> At(buf, offset, a) && At(buf, offset + |a|, b)
  {
    var end := offset + |a + b|;
    if end <= |buf| {
      SliceIsSlice(buf, offset, |a + b|);
      SliceIsSlice(buf, offset, |a|);
      SliceIsSlice(buf, offset + |a|, |b|);
      var x, y := buf[offset..offset + |a|], buf[offset + |a|..end];
      assert buf[offset..end] == x + y;
      assert (a + b)[..|a|] == a && (a + b)[|a|..] == b;
      assert (x + y)[..|a|] == x && (x + y)[|a|..] == y;
    }
  }

  lemma AtByte(buf: Bytes, offset: nat, b: Byte)
    ensures At(buf, offset, [b]) <==> offset < |buf| && buf[offset] == b
  {
    AtSlice(buf, offset, [b]);
  }
}
