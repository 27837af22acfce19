/**
 * The hand-written skip parser for FastAuth sign payloads. Each reader takes a
 * buffer and an offset and answers the offset after the field, or None (the
 * source's -1 or null) when the field does not fit. The functions say where a
 * field ends; the methods are the readers that loop.
 */
module PayloadDecoder {
  import opened Options
  import opened DelegateFormat
  import Base58

  function ReadU32(buf: Bytes, offset: nat): (n: Option<nat>)
    ensures n.Some? ==> n.value < U32_LIMIT
  {
    if offset + 4 > |buf| then None
    else
      var b0: nat, b1: nat, b2: nat, b3: nat := buf[offset], buf[offset + 1], buf[offset + 2], buf[offset + 3];
      Some(b0 + 256 * b1 + 65536 * b2 + 16777216 * b3)
  }

  function SkipLengthPrefixed(buf: Bytes, offset: nat): (next: Option<nat>)
    ensures next.Some? ==> offset + 4 <= next.value <= |buf|
  {
    match ReadU32(buf, offset)
    case None => None
    case Some(len) => if offset + 4 + len > |buf| then None else Some(offset + 4 + len)
  }

  function SkipPublicKey(buf: Bytes, offset: nat): (next: Option<nat>)
    ensures next.Some? ==> offset + 33 <= next.value <= |buf|
  {
    if offset + 1 > |buf| then None
    else
      var keyLen := if buf[offset] == 0 then 32 else if buf[offset] == 1 then 64 else -1;
      if keyLen < 0 || offset + 1 + keyLen > |buf| then None else Some(offset + 1 + keyLen)
  }

  /** Where `count` length-prefixed strings in a row end. */
  function AfterStrings(buf: Bytes, offset: nat, count: nat): (next: Option<nat>)
    ensures next.Some? ==> offset + 4 * count <= next.value && (offset <= |buf| ==> next.value <= |buf|)
    decreases count
  {
    if count == 0 then Some(offset)
    else
      match SkipLengthPrefixed(buf, offset)
      case None => None
      case Some(next) => AfterStrings(buf, next, count - 1)
  }

  /** Past the receiver and the method names of a function-call access key. */
  function AfterScope(buf: Bytes, offset: nat): (next: Option<nat>)
    ensures next.Some? ==> offset + 8 <= next.value <= |buf|
  {
    match SkipLengthPrefixed(buf, offset)
    case None => None
    case Some(names) =>
      match ReadU32(buf, names)
      case None => None
      case Some(methodCount) => AfterStrings(buf, names + 4, methodCount)
  }

  function AfterAccessKey(buf: Bytes, offset: nat): (next: Option<nat>)
    ensures next.Some? ==> offset + 9 <= next.value <= |buf|
  {
    if offset + 9 > |buf| then None
    else if buf[offset + 8] == 1 then Some(offset + 9)
    else if buf[offset + 8] == 0 then
      if offset + 10 > |buf| then None
      else AfterScope(buf, offset + 10 + if buf[offset + 9] == 1 then 16 else 0)
    else None
  }

  /** Past the fields of an action whose tag is `tag`. */
  function AfterPayload(buf: Bytes, tag: Byte, body: nat): (next: Option<nat>)
    ensures next.Some? ==> body <= next.value && (body <= |buf| ==> next.value <= |buf|)
  {
    match tag
    case 0 => Some(body)
    case 1 => SkipLengthPrefixed(buf, body)
    case 2 => AfterCall(buf, body)
    case 3 => if body + 16 > |buf| then None else Some(body + 16)
    case 4 => SkipPublicKey(buf, body + 16)
    case 5 =>
      (match SkipPublicKey(buf, body)
       case None => None
       case Some(access) => AfterAccessKey(buf, access))
    case 6 => SkipPublicKey(buf, body)
    case 7 => SkipLengthPrefixed(buf, body)
    case _ => None
  }

  function AfterCall(buf: Bytes, body: nat): (next: Option<nat>)
    ensures next.Some? ==> body + 32 <= next.value <= |buf|
  {
    match SkipLengthPrefixed(buf, body)
    case None => None
    case Some(args) =>
      match SkipLengthPrefixed(buf, args)
      case None => None
      case Some(gas) => if gas + 24 > |buf| then None else Some(gas + 24)
  }

  function AfterAction(buf: Bytes, offset: nat): (next: Option<nat>)
    ensures next.Some? ==> offset + 1 <= next.value <= |buf|
  {
    if offset + 1 > |buf| then None else AfterPayload(buf, buf[offset], offset + 1)
  }

  function AfterActions(buf: Bytes, offset: nat, count: nat): (next: Option<nat>)
    ensures next.Some? ==> offset + count <= next.value && (offset <= |buf| ==> next.value <= |buf|)
    decreases count
  {
    if count == 0 then Some(offset)
    else
      match AfterAction(buf, offset)
      case None => None
      case Some(next) => AfterActions(buf, next, count - 1)
  }

  /** Where the actions of a DelegateAction begin, and how many there are. */
  function ActionsHeader(buf: Bytes, offset: nat): (header: Option<(nat, nat)>)
    ensures header.Some? ==> offset + 12 <= header.value.0 <= |buf|
  {
    match SkipLengthPrefixed(buf, offset)
    case None => None
    case Some(receiver) =>
      match SkipLengthPrefixed(buf, receiver)
      case None => None
      case Some(count) =>
        match ReadU32(buf, count)
        case None => None
        case Some(n) => Some((count + 4, n))
  }

  /** The key that ends the DelegateAction, past the two u64 fields. */
  function TailKey(buf: Bytes, offset: nat): Option<PublicKey> {
    var at := offset + 16;
    match SkipPublicKey(buf, at)
    case None => None
    case Some(end) => Some(if buf[at] == 0 then Ed25519(buf[at + 1..end]) else Secp256k1(buf[at + 1..end]))
  }

  function DelegateKey(buf: Bytes, offset: nat): Option<PublicKey> {
    match ActionsHeader(buf, offset)
    case None => None
    case Some((first, count)) =>
      match AfterActions(buf, first, count)
      case None => None
      case Some(tail) => TailKey(buf, tail)
  }

  // ----- the readers that loop ------------------------------------------------

  /** Loop turns taken by the method-name loop over `count` declared names. */
  function StringTurns(buf: Bytes, offset: nat, count: nat): nat
    decreases count
  {
    if count == 0 then 0
    else
      match SkipLengthPrefixed(buf, offset)
      case None => 1
      case Some(next) => 1 + StringTurns(buf, next, count - 1)
  }

  function ScopeTurns(buf: Bytes, offset: nat): nat {
    match SkipLengthPrefixed(buf, offset)
    case None => 0
    case Some(names) =>
      match ReadU32(buf, names)
      case None => 0
      case Some(methodCount) => StringTurns(buf, names + 4, methodCount)
  }

  function AccessKeyTurns(buf: Bytes, offset: nat): nat {
    if offset + 10 <= |buf| && buf[offset + 8] == 0
    then ScopeTurns(buf, offset + 10 + if buf[offset + 9] == 1 then 16 else 0)
    else 0
  }

  function ActionTurns(buf: Bytes, offset: nat): nat {
    if offset < |buf| && buf[offset] == 5 then
      match SkipPublicKey(buf, offset + 1)
      case None => 0
      case Some(access) => AccessKeyTurns(buf, access)
    else 0
  }

  /** Loop turns of the action loop, with those of the loops inside it. */
  function ActionsTurns(buf: Bytes, offset: nat, count: nat): nat
    decreases count
  {
    if count == 0 then 0
    else
      1 + ActionTurns(buf, offset)
      + match AfterAction(buf, offset)
        case None => 0
        case Some(next) => ActionsTurns(buf, next, count - 1)
  }

  function DecodeTurns(buf: Bytes, offset: nat): nat {
    match ActionsHeader(buf, offset)
    case None => 0
    case Some((first, count)) => ActionsTurns(buf, first, count)
  }

  method SkipAccessKey(buf: Bytes, start: nat) returns (next: Option<nat>, ghost turns: nat)
    ensures next == AfterAccessKey(buf, start)
    ensures turns == AccessKeyTurns(buf, start)
  {
    hide ReadU32;
    turns := 0;
    var offset: nat := start + 8;
    if offset + 1 > |buf| { return None, turns; }
    var permission := buf[offset];
    offset := offset + 1;
    if permission == 1 { return Some(offset), turns; }
    if permission == 0 {
      if offset + 1 > |buf| { return None, turns; }
      var allowanceTag := buf[offset];
      offset := offset + 1;
      if allowanceTag == 1 { offset := offset + 16; }
      var skipped := SkipLengthPrefixed(buf, offset);
      if skipped == None { return None, turns; }
      offset := skipped.value;
      var methodCount := ReadU32(buf, offset);
      if methodCount == None { return None, turns; }
      offset := offset + 4;
      ghost var names := offset;
      for i := 0 to methodCount.value
        invariant AfterStrings(buf, names, methodCount.value) == AfterStrings(buf, offset, methodCount.value - i)
        invariant StringTurns(buf, names, methodCount.value) == turns + StringTurns(buf, offset, methodCount.value - i)
      {
        turns := turns + 1;
        skipped := SkipLengthPrefixed(buf, offset);
        if skipped == None { return None, turns; }
        offset := skipped.value;
      }
      return Some(offset), turns;
    }
    return None, turns;
  }

  method SkipAction(buf: Bytes, start: nat) returns (next: Option<nat>, ghost turns: nat)
    ensures next == AfterAction(buf, start)
    ensures turns == ActionTurns(buf, start)
  {
    turns := 0;
    var offset: nat := start;
    if offset + 1 > |buf| { return None, turns; }
    var tag := buf[offset];
    offset := offset + 1;
    match tag {
      case 0 => return Some(offset), turns;
      case 1 => return SkipLengthPrefixed(buf, offset), turns;
      case 2 =>
        var field := SkipLengthPrefixed(buf, offset);
        if field == None { return None, turns; }
        field := SkipLengthPrefixed(buf, field.value);
        if field == None { return None, turns; }
        offset := field.value + 8 + 16;
        return if offset > |buf| then None else Some(offset), turns;
      case 3 => return if offset + 16 > |buf| then None else Some(offset + 16), turns;
      case 4 =>
        offset := offset + 16;
        return SkipPublicKey(buf, offset), turns;
      case 5 =>
        var field := SkipPublicKey(buf, offset);
        if field == None { return None, turns; }
        next, turns := SkipAccessKey(buf, field.value);
      case 6 => return SkipPublicKey(buf, offset), turns;
      case 7 => return SkipLengthPrefixed(buf, offset), turns;
      case _ => return None, turns;
    }
  }

  method TryDecodeDelegateAction(buf: Bytes, startOffset: nat) returns (text: Option<string>, ghost turns: nat)
    ensures text == match DelegateKey(buf, startOffset) case None => None case Some(k) => Some(KeyText(k))
    ensures turns == DecodeTurns(buf, startOffset)
  {
    hide AfterAction, ActionTurns, Base58.Encoding;
    turns := 0;
    var field := SkipLengthPrefixed(buf, startOffset);
    if field == None { return None, turns; }
    field := SkipLengthPrefixed(buf, field.value);
    if field == None { return None, turns; }
    var offset: nat := field.value;
    var actionsCount := ReadU32(buf, offset);
    if actionsCount == None { return None, turns; }
    offset := offset + 4;
    ghost var first, count := offset, actionsCount.value;
    for i := 0 to actionsCount.value
      invariant AfterActions(buf, first, count) == AfterActions(buf, offset, count - i)
      invariant ActionsTurns(buf, first, count) == turns + ActionsTurns(buf, offset, count - i)
    {
      ghost var inner;
      field, inner := SkipAction(buf, offset);
      turns := turns + 1 + inner;
      if field == None { return None, turns; }
      offset := field.value;
    }
    offset := offset + 16;
    if offset + 1 > |buf| { return None, turns; }
    var variant := buf[offset];
    offset := offset + 1;
    var keyLen := if variant == 0 then 32 else if variant == 1 then 64 else -1;
    if keyLen < 0 { return None, turns; }
    if offset + keyLen > |buf| { return None, turns; }
    var keyBytes := buf[offset..offset + keyLen];
    var prefix := if variant == 0 then "ed25519:" else "secp256k1:";
    var encoded := Base58.Encode(keyBytes);
    text := Some(prefix + encoded);
  }

  // ----- bounded work ---------------------------------------------------------

  lemma {:induction false} StringTurnsBound(buf: Bytes, offset: nat, count: nat)
    ensures 4 * StringTurns(buf, offset, count) <=
            match AfterStrings(buf, offset, count)
            case Some(next) => next - offset
            case None => if offset <= |buf| then |buf| - offset + 4 else 4
    decreases count
  {
    if count > 0 && SkipLengthPrefixed(buf, offset).Some? {
      StringTurnsBound(buf, SkipLengthPrefixed(buf, offset).value, count - 1);
    }
  }

  lemma ScopeTurnsBound(buf: Bytes, offset: nat)
    requires offset <= |buf| || SkipLengthPrefixed(buf, offset).None?
    ensures match AfterScope(buf, offset)
            case Some(next) => 4 * ScopeTurns(buf, offset) <= next - offset - 8
            case None => offset <= |buf| ==> 4 * ScopeTurns(buf, offset) <= |buf| - offset
    ensures offset > |buf| ==> ScopeTurns(buf, offset) == 0
  {
    match SkipLengthPrefixed(buf, offset)
    case None =>
    case Some(names) =>
      match ReadU32(buf, names)
      case None =>
      case Some(methodCount) => StringTurnsBound(buf, names + 4, methodCount);
  }

  lemma ActionTurnsBound(buf: Bytes, offset: nat)
    requires offset <= |buf|
    ensures match AfterAction(buf, offset)
            case Some(next) => 1 + ActionTurns(buf, offset) <= next - offset
            case None => ActionTurns(buf, offset) <= |buf| - offset
  {
    if offset < |buf| && buf[offset] == 5 && SkipPublicKey(buf, offset + 1).Some? {
      var access := SkipPublicKey(buf, offset + 1).value;
      if access + 10 <= |buf| && buf[access + 8] == 0 {
        ScopeTurnsBound(buf, access + 10 + if buf[access + 9] == 1 then 16 else 0);
      }
    }
  }

  /** However large the declared counts, all loops together turn at most once a byte, and once more. */
  lemma {:induction false} ActionsTurnsBound(buf: Bytes, offset: nat, count: nat)
    requires offset <= |buf|
    ensures ActionsTurns(buf, offset, count) <= |buf| - offset + 1
    decreases count
  {
    if count > 0 {
      ActionTurnsBound(buf, offset);
      if AfterAction(buf, offset).Some? {
        ActionsTurnsBound(buf, AfterAction(buf, offset).value, count - 1);
      }
    }
  }

  /** So the whole reader turns less than once for every byte after the offset, whatever the buffer says. */
  lemma DecodeTurnsBound(buf: Bytes, offset: nat)
    ensures DecodeTurns(buf, offset) <= if offset + 12 <= |buf| then |buf| - offset - 11 else 0
  {
    match ActionsHeader(buf, offset)
    case None =>
    case Some((first, count)) => ActionsTurnsBound(buf, first, count);
  }
}
