/** Sending one reply: header, file range and footer, in as many attempts as the socket needs. */
module Delivery {
  import opened Bits
  import opened Options

  const EPARAM := -1
  const EAGAIN := -2
  const EFATAL := -4
  const EDELAY := -5

  /** A byte on its way, in band or out of band. */
  datatype Unit = Unit(value: byte, urgent: bool)

  function Units(data: seq<byte>, urgent: bool): (u: seq<Unit>)
    ensures |u| == |data|
    ensures forall i :: 0 <= i < |data| ==> u[i] == Unit(data[i], urgent)
  {
    if data == [] then [] else Units(data[..|data| - 1], urgent) + [Unit(data[|data| - 1], urgent)]
  }

  /** What the system answers to an attempt to write: it takes some bytes, has no room, or the connection is broken. */
  datatype Answer = Takes(count: nat) | NoRoom | Failed

  /** The value of the write: a count of at least one byte and at most all of them, or an error. */
  function Written(size: nat, a: Answer): (w: int)
    requires size > 0
    ensures w == EAGAIN || w == EFATAL || 1 <= w <= size
  {
    match a
    case Takes(count) => if count == 0 then 1 else if count > size then size else count
    case NoRoom => EAGAIN
    case Failed => EFATAL
  }

  /** A reply: what is left of its three parts; an empty part stands for one that is not there or has been sent. */
  datatype Reply = Reply(
    token: nat, timer: nat, delay: nat, urgent: bool, ack: bool, end: bool,
    header: seq<byte>, range: seq<byte>, footer: seq<byte>)

  /** All bytes that are left to send, in order. */
  function Remaining(r: Reply): seq<Unit> {
    Units(r.header, r.urgent) + Units(r.range, false) + Units(r.footer, false)
  }

  predicate Delayed(r: Reply) {
    r.timer != 0 && r.delay != 0
  }

  /** The moments at which the reply is to wait. */
  predicate Waits(r: Reply, now: nat) {
    Delayed(r) && r.timer + r.delay > now
  }

  /** The clock and the answers of the system to the three writes of one attempt. */
  datatype World = World(now: nat, first: Answer, second: Answer, third: Answer)

  /** One attempt: the code it returns, what is left of the reply, and what went out. */
  datatype Attempt = Attempt(code: int, rest: Reply, sent: seq<Unit>)

  function Footer(r: Reply, a: Answer): Attempt
    requires r.header == [] && r.range == []
  {
    if r.footer == [] then Attempt(0, r, [])
    else
      var w := Written(|r.footer|, a);
      if w < 0 then Attempt(w, r, [])
      else Attempt(if w < |r.footer| then EAGAIN else 0, r.(footer := r.footer[w..]), Units(r.footer[..w], false))
  }

  function Range(r: Reply, a: Answer, b: Answer): Attempt
    requires r.header == []
  {
    if r.range == [] then Footer(r, b)
    else
      var w := Written(|r.range|, a);
      if w < 0 then Attempt(w, r, [])
      else
        var rest, sent := r.(range := r.range[w..]), Units(r.range[..w], false);
        if w < |r.range| then Attempt(EAGAIN, rest, sent)
        else
          var f := Footer(rest, b);
          Attempt(f.code, f.rest, sent + f.sent)
  }

  function Header(r: Reply, w1: Answer, w2: Answer, w3: Answer): Attempt {
    if r.header == [] then Range(r, w2, w3)
    else
      var w := Written(|r.header|, w1);
      if w < 0 then Attempt(w, r, [])
      else
        var rest, sent := r.(header := r.header[w..]), Units(r.header[..w], r.urgent);
        if w < |r.header| then Attempt(EAGAIN, rest, sent)
        else
          var f := Range(rest, w2, w3);
          Attempt(f.code, f.rest, sent + f.sent)
  }

  /** `server_reply_process` on a socket that belongs to the plugin with the given token. */
  function Process(r: Reply, owner: nat, w: World): Attempt {
    if r.token != owner then Attempt(EPARAM, r, [])
    else if Waits(r, w.now) then Attempt(EDELAY, r, [])
    else Header(r, w.first, w.second, w.third)
  }

  lemma {:induction false} UnitsSplit(data: seq<byte>, k: nat, urgent: bool)
    requires k <= |data|
    ensures Units(data[..k], urgent) + Units(data[k..], urgent) == Units(data, urgent)
  {
  }

  /** The two replies differ only in what is left to send. */
  predicate SameButParts(r: Reply, s: Reply) {
    s == r.(header := s.header, range := s.range, footer := s.footer)
  }

  /** Taking bytes off the front of a part takes them off the front of what is left. */
  lemma FooterShrinks(r: Reply, w: nat)
    requires r.header == [] && r.range == [] && w <= |r.footer|
    ensures Units(r.footer[..w], false) + Remaining(r.(footer := r.footer[w..])) == Remaining(r)
  {
    hide Units;
    UnitsSplit(r.footer, w, false);
    assert Units(r.header, r.urgent) == [] && Units(r.range, false) == [];
  }

  lemma RangeShrinks(r: Reply, w: nat)
    requires r.header == [] && w <= |r.range|
    ensures Units(r.range[..w], false) + Remaining(r.(range := r.range[w..])) == Remaining(r)
  {
    hide Units;
    UnitsSplit(r.range, w, false);
    assert Units(r.header, r.urgent) == [];
  }

  lemma HeaderShrinks(r: Reply, w: nat)
    requires w <= |r.header|
    ensures Units(r.header[..w], r.urgent) + Remaining(r.(header := r.header[w..])) == Remaining(r)
  {
    hide Units;
    UnitsSplit(r.header, w, r.urgent);
  }

  lemma NothingLeft(r: Reply)
    requires r.header == [] && r.range == [] && r.footer == []
    ensures Remaining(r) == []
  {
  }

  lemma Joined(x: seq<Unit>, y: seq<Unit>, z: seq<Unit>)
    ensures x + y + z == x + (y + z)
  {
  }

  ghost predicate Keeps(r: Reply, f: Attempt) {
    && f.sent + Remaining(f.rest) == Remaining(r) && (f.code == 0 ==> Remaining(f.rest) == [])
    && f.code in {0, EAGAIN, EFATAL} && SameButParts(r, f.rest)
  }

  /** A part that is sent entirely, and what is sent of the rest. */
  lemma KeepsOn(r: Reply, sent: seq<Unit>, rest: Reply, f: Attempt)
    requires sent + Remaining(rest) == Remaining(r) && SameButParts(r, rest) && Keeps(rest, f)
    ensures Keeps(r, Attempt(f.code, f.rest, sent + f.sent))
  {
    hide Remaining;
    Joined(sent, f.sent, Remaining(f.rest));
  }

  lemma FooterKeeps(r: Reply, a: Answer)
    requires r.header == [] && r.range == []
    ensures Keeps(r, Footer(r, a))
  {
    hide Units, Written, Remaining;
    if r.footer == [] {
      NothingLeft(r);
      assert [] + Remaining(r) == Remaining(r);
    } else {
      var w := Written(|r.footer|, a);
      if w > 0 {
        FooterShrinks(r, w);
        if w == |r.footer| { NothingLeft(r.(footer := r.footer[w..])); }
      } else {
        assert [] + Remaining(r) == Remaining(r);
      }
    }
  }

  lemma RangeKeeps(r: Reply, a: Answer, b: Answer)
    requires r.header == []
    ensures Keeps(r, Range(r, a, b))
  {
    hide Footer, Units, Written, Remaining;
    if r.range == [] {
      FooterKeeps(r, b);
    } else {
      var w := Written(|r.range|, a);
      if w > 0 {
        var rest := r.(range := r.range[w..]);
        RangeShrinks(r, w);
        if w == |r.range| {
          FooterKeeps(rest, b);
          KeepsOn(r, Units(r.range[..w], false), rest, Footer(rest, b));
        }
      } else {
        assert [] + Remaining(r) == Remaining(r);
      }
    }
  }

  lemma HeaderKeeps(r: Reply, a: Answer, b: Answer, c: Answer)
    ensures Keeps(r, Header(r, a, b, c))
  {
    hide Range, Units, Written, Remaining;
    if r.header == [] {
      RangeKeeps(r, b, c);
    } else {
      var w := Written(|r.header|, a);
      if w > 0 {
        var rest := r.(header := r.header[w..]);
        HeaderShrinks(r, w);
        if w == |r.header| {
          RangeKeeps(rest, b, c);
          KeepsOn(r, Units(r.header[..w], r.urgent), rest, Range(rest, b, c));
        }
      } else {
        assert [] + Remaining(r) == Remaining(r);
      }
    }
  }

  /**
   * One attempt, whatever the system answers: what went out and what is left are together what was left before; only a
   * complete reply returns 0; nothing goes out for a reply that waits or that is not for this socket.
   */
  lemma {:induction false} AttemptKeeps(r: Reply, owner: nat, w: World)
    ensures var p := Process(r, owner, w);
      && p.sent + Remaining(p.rest) == Remaining(r) && SameButParts(r, p.rest)
      && p.code in {0, EAGAIN, EFATAL, EPARAM, EDELAY}
      && (p.code == 0 ==> Remaining(p.rest) == [])
      && (p.code == EPARAM <==> r.token != owner)
      && (p.code == EDELAY <==> r.token == owner && Waits(r, w.now))
      && (p.code == EPARAM || p.code == EDELAY ==> p.sent == [] && p.rest == r)
  {
    hide Header, Remaining;
    HeaderKeeps(r, w.first, w.second, w.third);
    assert [] + Remaining(r) == Remaining(r);
  }
}
