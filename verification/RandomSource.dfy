/** The hardware random source: a request of any size filled in place from 32-octet answers. */
module RandomSource {
  import opened Bytes
  import opened Chips
  import opened Protocol
  import opened Calls
  import opened Sessions
  import opened KeySessions

  /** acts asks the chip for random octets, and every answer but perhaps the last is one. */
  predicate Draws(acts: seq<Action>) {
    forall i :: 0 <= i < |acts| ==> acts[i].Cmd? && acts[i].cmd == Random &&
                                    (i < |acts| - 1 ==> Drawn(acts[i]))
  }

  predicate Drawn(a: Action) {
    a.Cmd? && a.reply.status == Success && |a.reply.data| == 32
  }

  predicate AllDrawn(acts: seq<Action>) {
    forall i :: 0 <= i < |acts| ==> Drawn(acts[i])
  }

  /** The octets the chip gave, in the order it gave them. */
  function Stream(acts: seq<Action>): (b: seq<Byte>)
    requires AllDrawn(acts)
    ensures |b| == 32 * |acts|
  {
    if |acts| == 0 then []
    else
      assert Drawn(acts[|acts| - 1]);
      Stream(acts[..|acts| - 1]) + acts[|acts| - 1].reply.data
  }

  lemma StreamGrows(acts: seq<Action>, a: Action)
    requires AllDrawn(acts) && Drawn(a)
    ensures AllDrawn(acts + [a])
    ensures Stream(acts + [a]) == Stream(acts) + a.reply.data
  {
    assert (acts + [a])[..|acts|] == acts;
  }

  /** Octet k of the stream is octet k % 32 of answer k / 32. */
  lemma {:induction false} StreamAt(acts: seq<Action>, k: nat)
    requires AllDrawn(acts) && k < 32 * |acts|
    ensures Drawn(acts[k / 32]) && Stream(acts)[k] == acts[k / 32].reply.data[k % 32]
  {
    var n := |acts| - 1;
    assert Drawn(acts[n]);
    if k < 32 * n {
      StreamAt(acts[..n], k);
    }
  }

  function Blocks(n: nat): nat {
    (n + 31) / 32
  }

  /** What the draws acts leave of a request for num octets in a buffer that held before: on
      success exactly as many draws as needed and the stream's first num octets; after a failed
      last draw the whole answers in front of it and nothing else. */
  ghost predicate Served(ok: bool, acts: seq<Action>, now: seq<Byte>, before: seq<Byte>, num: nat)
    requires num <= |before|
  {
    && Draws(acts) && 0 < |acts| <= Blocks(num)
    && (ok <==> Drawn(acts[|acts| - 1]))
    && (ok ==> |acts| == Blocks(num) && AllDrawn(acts) && now == Stream(acts)[..num] + before[num..])
    && (!ok ==> var whole := acts[..|acts| - 1];
                AllDrawn(whole) && |Stream(whole)| < num && now == Stream(whole) + before[|Stream(whole)|..])
  }

  /** RAND_eccx08_rand_bytes. Either no session opened, nothing was drawn and it fails, or it
      succeeds exactly when every draw did. */
  method RandBytes(c: Context, buf: array?<Byte>, num: nat) returns (ret: bool, ghost acts: seq<Action>)
    requires c.Ready() && (buf != null ==> num <= buf.Length)
    modifies c.engine, c.engine.world, buf
    ensures c.Ready() && c.engine.blocks == old(c.engine.blocks)
    ensures c.engine.Log() == old(c.engine.Log()) + acts
    ensures Asks(old(c.engine.Acts()), c.engine.Acts(), buf != null && num != 0)
    ensures acts != [] ==> buf != null && acts[0] == ChipInit(c.pCfg, Success)
    ensures acts != [] ==> Served(ret, acts[1..], buf[..], old(buf[..]), num)
    ensures acts == [] ==> !ret && (buf != null ==> buf[..] == old(buf[..]))
  {
    hide Run, Body, Own, InitCall, ReleaseCall, LastRelease, Bracketed, Persistent, Initial, LocalStep, Answers;
    acts := [];
    if buf == null || num == 0 {
      return false, acts;
    }
    ghost var before := c.engine.Acts();
    var status := c.engine.InitSafe(c.pCfg);
    if status != Success {
      return false, acts;
    }
    ghost var toSession := c.engine.world.trace;

    var left, drawn := Fill(c, buf, num);
    acts := [ChipInit(c.pCfg, Success)] + drawn;
    assert acts[1..] == drawn;
    var _ := c.engine.ReleaseSafe();
    AsksOn(before, toSession, c.engine.world.trace, c.engine.pid);
    ret := left == 0;
  }

  /** The loop of rand_bytes, inside the session; left is what the last draw, failing, left
      undone. */
  method Fill(c: Context, buf: array<Byte>, num: nat) returns (left: nat, ghost acts: seq<Action>)
    requires c.InBody() && 0 < num <= buf.Length
    modifies c.engine.world, buf
    ensures c.InBody() && c.engine.Onward() && c.engine.Log() == old(c.engine.Log()) + acts
    ensures Served(left == 0, acts, buf[..], old(buf[..]), num)
  {
    hide Run, Body, Own, InitCall, ReleaseCall, LastRelease, Bracketed, Persistent, Initial, LocalStep, Answers;
    hide Stream, Drawn, Draws, Served, Filled;
    ghost var log, before := c.engine.Log(), buf[..];
    ghost var given: seq<Action> := [];
    var status, pos := Success, 0;
    left, acts := num, [];
    StartFilled(before);
    while 0 < left && status == Success
      invariant c.InBody() && c.engine.Onward() && c.engine.Log() == log + acts
      invariant pos + left == num && pos == if left > 0 then 32 * |given| else num
      invariant left == 0 ==> |given| == Blocks(num)
      invariant Filled(buf[..], before, given, pos)
      invariant status == Success ==> acts == given
      invariant status != Success ==> left > 0 && Stopped(acts, given)
      decreases left, if status == Success then 1 else 0
    {
      var reply := c.engine.Execute(Random);
      status := reply.status;
      ghost var a := Cmd(Random, reply, c.engine.world.g.chip);
      DrawsGrow(buf[..], before, given, pos, a);
      acts := acts + [a];
      if status == Success {
        ghost var now := buf[..];
        var n := FillStep(buf, pos, left, reply.data);
        FilledGrows(now, before, given, pos, a, n);
        given := given + [a];
        left, pos := left - n, pos + n;
      }
    }
    FilledEnds(buf[..], before, given, pos, acts, num, left == 0);
  }

  /** The draws in given have filled the first pos octets of what was before. */
  ghost predicate Filled(now: seq<Byte>, before: seq<Byte>, given: seq<Action>, pos: nat) {
    && AllDrawn(given) && Draws(given)
    && pos <= 32 * |given| && pos <= |before|
    && now == Stream(given)[..pos] + before[pos..]
  }

  /** The draws were given and one more that failed. */
  ghost predicate Stopped(acts: seq<Action>, given: seq<Action>) {
    Draws(acts) && |acts| == |given| + 1 && acts[..|given|] == given && !Drawn(acts[|given|])
  }

  lemma StartFilled(before: seq<Byte>)
    ensures Filled(before, before, [], 0)
  {
  }

  lemma DrawsGrow(now: seq<Byte>, before: seq<Byte>, given: seq<Action>, pos: nat, a: Action)
    requires Filled(now, before, given, pos) && a.Cmd? && a.cmd == Random
    ensures Draws(given + [a])
    ensures a.reply.status != Success ==> Stopped(given + [a], given)
  {
  }

  lemma FilledGrows(now: seq<Byte>, before: seq<Byte>, given: seq<Action>, pos: nat, a: Action, n: nat)
    requires Filled(now, before, given, pos) && pos == 32 * |given| && n <= 32 && pos + n <= |before|
    requires a.Cmd? && a.cmd == Random && a.reply.status == Success && |a.reply.data| == 32
    ensures Filled(now[..pos] + a.reply.data[..n] + now[pos + n..], before, given + [a], pos + n)
  {
    StreamGrows(given, a);
    DrawsGrow(now, before, given, pos, a);
  }

  lemma FilledEnds(now: seq<Byte>, before: seq<Byte>, given: seq<Action>, pos: nat, acts: seq<Action>,
                   num: nat, ok: bool)
    requires Filled(now, before, given, pos) && num <= |before|
    requires ok ==> acts == given && |given| == Blocks(num) && pos == num > 0
    requires !ok ==> Stopped(acts, given) && pos == 32 * |given| < num
    ensures Served(ok, acts, now, before, num)
  {
    assert Stream(given)[..|Stream(given)|] == Stream(given);
  }

  /** One successful draw: the whole answer if it fits, else what is still asked for. */
  method FillStep(buf: array<Byte>, pos: nat, left: nat, data: seq<Byte>) returns (n: nat)
    requires 0 < left && pos + left <= buf.Length && |data| == ATCA_BLOCK_SIZE
    modifies buf
    ensures n == if ATCA_BLOCK_SIZE <= left then ATCA_BLOCK_SIZE else left
    ensures buf[..] == old(buf[..pos]) + data[..n] + old(buf[pos + n..])
  {
    if ATCA_BLOCK_SIZE <= left {
      CopyInto(buf, pos, data);
      n := ATCA_BLOCK_SIZE;
      assert data[..n] == data;
    } else {
      CopyInto(buf, pos, data[..left]);
      n := left;
    }
  }
}
