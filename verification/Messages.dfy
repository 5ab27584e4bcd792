/** The registers of a message (sel4_ipc/src/transfer.rs, sel4_task/src/tcb.rs, sel4_common/src/message_info.rs,
    kernel/src/kernel/fastpath.rs): the fast path's own copy leaves the receiver what the slow path's copy would. */
module Messages {
  import opened Caps
  import opened Words

  // ---- the message information word ----

  const MAX_LENGTH := 120

  function Length(w: nat): (n: nat) {
    w % 128
  }

  function ExtraCaps(w: nat): (n: nat) {
    w / 128 % 4
  }

  function Label(w: nat): (n: nat) {
    w / 4096
  }

  /** set_caps_unwrapped(0) */
  function Cleared(w: nat): (r: nat) {
    w - w / 512 % 8 * 512
  }

  /** Label, bits of unwrapped capabilities, number of extra capabilities, length. */
  function Info(tag: nat, unwrapped: nat, extra: nat, length: nat): (w: nat)
    requires unwrapped < 8 && extra < 4 && length < 128
    ensures Label(w) == tag && ExtraCaps(w) == extra && Length(w) == length
  {
    tag * 4096 + unwrapped * 512 + extra * 128 + length
  }

  /** fastpath_mi_check on the low nine bits. */
  predicate IsShort(w: nat) {
    w % 512 <= 4
  }

  /** Short means at most four words and no capabilities. */
  lemma ShortIff(w: nat)
    ensures IsShort(w) <==> Length(w) <= 4 && ExtraCaps(w) == 0
  {
    assert w % 512 == w / 128 % 4 * 128 + w % 128;
  }

  // ---- registers ----

  const REGISTERS := 35
  const BADGE := 9
  const MSG_INFO := 10
  const MSG := 11
  const MSG_REGISTERS := 4

  type Registers = seq<nat>

  function Min(a: nat, b: nat): (m: nat) {
    if a < b then a else b
  }

  /** The first n message registers come from src. */
  function WithMessage(src: Registers, dst: Registers, n: nat): (r: Registers)
    requires |src| == |dst| == REGISTERS && n <= MSG_REGISTERS
  {
    seq(REGISTERS, k requires 0 <= k < REGISTERS => if MSG <= k < MSG + n then src[k] else dst[k])
  }

  /** The buffer with words from to length taken from another one; word 0 is the message information. */
  function WithWords(src: seq<nat>, dst: seq<nat>, from: nat, length: nat): (r: seq<nat>)
    requires length < |src| && length < |dst|
  {
    seq(|dst|, k requires 0 <= k < |dst| => if from < k <= length then src[k] else dst[k])
  }

  /** Both threads have a buffer that holds the whole message. */
  predicate Buffers(send: Option<seq<nat>>, recv: Option<seq<nat>>) {
    send.Some? && recv.Some? ==> MAX_LENGTH < |send.value| && MAX_LENGTH < |recv.value|
  }

  /** copy_mrs: registers first, then words of the buffers. */
  method CopyMrs(src: Registers, dst: Registers, length: nat, send: Option<seq<nat>>, recv: Option<seq<nat>>)
    returns (r: Registers, buffer: Option<seq<nat>>, n: nat)
    requires |src| == |dst| == REGISTERS && length <= MAX_LENGTH && Buffers(send, recv)
    ensures r == WithMessage(src, dst, Min(length, MSG_REGISTERS))
    ensures n == if send.Some? && recv.Some? then length else Min(length, MSG_REGISTERS)
    ensures buffer == if send.Some? && recv.Some? then Some(WithWords(send.value, recv.value, MSG_REGISTERS, length))
      else recv
  {
    r, buffer, n := dst, recv, 0;
    while n < length && n < MSG_REGISTERS
      invariant n <= Min(length, MSG_REGISTERS) && r == WithMessage(src, dst, n)
    {
      r := r[MSG + n := src[MSG + n]];
      n := n + 1;
    }
    if send.Some? && recv.Some? {
      var words := recv.value;
      while n < length
        invariant Min(length, MSG_REGISTERS) <= n <= length
        invariant words == WithWords(send.value, recv.value, MSG_REGISTERS, n)
      {
        words := words[n + 1 := send.value[n + 1]];
        n := n + 1;
      }
      buffer := Some(words);
    }
  }

  /** What do_normal_transfer leaves of a message: count and unwrapped are what set_transfer_caps reports. */
  method NormalTransfer(src: Registers, dst: Registers, badge: nat, unwrapped: nat, count: nat, send: Option<seq<nat>>,
      recv: Option<seq<nat>>)
    returns (r: Registers, buffer: Option<seq<nat>>)
    requires |src| == |dst| == REGISTERS && Buffers(send, recv) && unwrapped < 8 && count < 4
    ensures
      var w := src[MSG_INFO];
      var asked := Min(Length(w), MAX_LENGTH);
      var sent := if send.Some? && recv.Some? then asked else Min(asked, MSG_REGISTERS);
      && r == WithMessage(src, dst,
        Min(asked, MSG_REGISTERS))[MSG_INFO := Info(Label(w), unwrapped, count, sent)][BADGE := badge]
      && buffer == if send.Some? && recv.Some? then Some(WithWords(send.value, recv.value, MSG_REGISTERS, asked))
        else recv
  {
    var w := src[MSG_INFO];
    var n;
    r, buffer, n := CopyMrs(src, dst, Min(Length(w), MAX_LENGTH), send, recv);
    r := r[MSG_INFO := Info(Label(w), unwrapped, count, n)];
    r := r[BADGE := badge];
  }

  /** The fast path: fastpath_copy_mrs, and badge and message information as it returns to the receiver. */
  method FastTransfer(src: Registers, dst: Registers, badge: nat) returns (r: Registers)
    requires |src| == |dst| == REGISTERS && IsShort(src[MSG_INFO])
    ensures r == Fast(src, dst, badge)
  {
    var w := src[MSG_INFO];
    ShortIff(w);
    var length := Length(w);
    r := dst[..MSG] + src[MSG..MSG + length] + dst[MSG + length..];
    assert r == WithMessage(src, dst, length);
    r := r[MSG_INFO := Cleared(w)];
    r := r[BADGE := badge];
  }

  function Fast(src: Registers, dst: Registers, badge: nat): (r: Registers)
    requires |src| == |dst| == REGISTERS && IsShort(src[MSG_INFO])
  {
    var w := src[MSG_INFO];
    ShortIff(w);
    WithMessage(src, dst, Length(w))[MSG_INFO := Cleared(w)][BADGE := badge]
  }

  lemma NoWords(src: seq<nat>, dst: seq<nat>, length: nat)
    requires length <= MSG_REGISTERS && length < |src| && length < |dst|
    ensures WithWords(src, dst, MSG_REGISTERS, length) == dst
  {}

  /** A short message arrives the same either way, and leaves the receiver's buffer alone. */
  method ShortMessagesAgree(src: Registers, dst: Registers, badge: nat, send: Option<seq<nat>>, recv: Option<seq<nat>>)
    returns (fast: Registers, slow: Registers, buffer: Option<seq<nat>>)
    requires |src| == |dst| == REGISTERS && Buffers(send, recv) && IsShort(src[MSG_INFO])
    ensures fast == slow && buffer == recv
  {
    fast := FastTransfer(src, dst, badge);
    slow, buffer := NormalTransfer(src, dst, badge, 0, 0, send, recv);
    ShortInfo(src[MSG_INFO]);
    if send.Some? && recv.Some? { NoWords(send.value, recv.value, Length(src[MSG_INFO])); }
  }

  /** Clearing the bits of unwrapped capabilities leaves label and length. */
  lemma ShortInfo(w: nat)
    requires IsShort(w)
    ensures Length(w) <= 4 && Cleared(w) == Info(Label(w), 0, 0, Length(w))
  {
    ShortIff(w);
    var a, b := w / 512, w % 512;
    var c, d := a / 8, a % 8;
    assert w == 512 * a + b && a == 8 * c + d;
    DivModUnique(w, 4096, c, 512 * d + b);
    assert b % 128 == w % 128;
  }
}
