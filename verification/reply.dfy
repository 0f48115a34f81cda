/** The reply and the socket as objects: an attempt to send shortens the reply in place. */
module ReplyObjects {
  import opened Bits
  import opened Delivery
  import opened Options

  /** A connected socket: the plugin it belongs to, and what was put on it. */
  class Link {
    const owner: nat
    var wire: seq<Unit>

    constructor (owner: nat)
      ensures this.owner == owner && wire == []
    {
      this.owner := owner;
      wire := [];
    }

    /** `socket_write` and its variants, with the answer of the system as a parameter. */
    method Write(data: seq<byte>, urgent: bool, a: Answer) returns (w: int)
      requires data != []
      modifies this
      ensures w == Written(|data|, a)
      ensures wire == old(wire) + if w > 0 then Units(data[..w], urgent) else []
    {
      w := Written(|data|, a);
      if w > 0 {
        wire := wire + Units(data[..w], urgent);
      } else {
        assert wire + [] == wire;
      }
    }
  }

  lemma RangeMoves(data: seq<byte>, off: nat, len: nat, w: nat)
    requires off + len <= |data| && w <= len
    ensures data[off..off + len][w..] == data[off + w..off + w + (len - w)]
    ensures w == len ==> data[off..off + len][w..] == []
  {
  }

  class Task {
    const token: nat
    var timer: nat
    var delay: nat
    const urgent: bool
    const ack: bool
    const end: bool
    var header: Option<seq<byte>>
    var file: Option<seq<byte>>
    var off: nat
    var len: nat
    var footer: Option<seq<byte>>

    /** `server_reply_init` */
    constructor (token: nat, urgent: bool, ack: bool, end: bool)
      ensures Valid() && View() == Reply(token, 0, 0, urgent, ack, end, [], [], [])
      ensures this.urgent == urgent
    {
      this.token, this.urgent, this.ack, this.end := token, urgent, ack, end;
      timer, delay := 0, 0;
      header, file, footer := None, None, None;
      off, len := 0, 0;
    }

    /** Parts that are there are not empty, and the range lies in the file. */
    ghost predicate Valid()
      reads this
    {
      && (header.Some? ==> header.value != [])
      && (file.Some? ==> len > 0 && off + len <= |file.value|)
      && (footer.Some? ==> footer.value != [])
    }

    function View(): Reply
      requires Valid()
      reads this
    {
      Reply(token, timer, delay, urgent, ack, end,
            if header.Some? then header.value else [],
            if file.Some? then file.value[off..off + len] else [],
            if footer.Some? then footer.value else [])
    }

    /** `server_reply_setheader`: a second header is appended to the first. */
    method SetHeader(data: seq<byte>)
      requires Valid() && data != []
      modifies this`header
      ensures Valid() && View() == old(View()).(header := old(View()).header + data)
    {
      if header.Some? { header := Some(header.value + data); } else { header := Some(data); }
    }

    /** `server_reply_setfooter` */
    method SetFooter(data: seq<byte>)
      requires Valid() && data != []
      modifies this`footer
      ensures Valid() && View() == old(View()).(footer := old(View()).footer + data)
    {
      if footer.Some? { footer := Some(footer.value + data); } else { footer := Some(data); }
    }

    /** `server_reply_setfile`: without a length the range is as long as the file. */
    method SetFile(data: seq<byte>, o: nat, n: nat) returns (r: int)
      requires Valid() && data != [] && o + (if n != 0 then n else |data|) <= |data|
      modifies this`file, this`off, this`len
      ensures Valid() && r == (if urgent then -1 else 0)
      ensures View() == if urgent then old(View())
                        else old(View()).(range := data[o..o + if n != 0 then n else |data|])
    {
      if urgent { return -1; }
      file, off := Some(data), o;
      len := if n != 0 then n else |data|;
      r := 0;
    }

    /** `server_reply_setdelay`, with the time as a parameter. */
    method SetDelay(nsec: nat, now: nat) returns (r: int)
      requires Valid()
      modifies this`timer, this`delay
      ensures Valid() && r == (if nsec == 0 || nsec > 3600 then -1 else 0)
      ensures View() == if r == 0 then old(View()).(timer := now, delay := nsec) else old(View())
    {
      if nsec == 0 { return -1; }
      if nsec > 3600 { return -1; }
      timer, delay := now, nsec;
      r := 0;
    }

    method SendFooter(s: Link, a: Answer) returns (code: int)
      requires Valid() && header == None && file == None
      modifies this`footer, s
      ensures Valid()
      ensures var f := Footer(old(View()), a); code == f.code && View() == f.rest && s.wire == old(s.wire) + f.sent
    {
      hide Units, Written;
      if footer.Some? {
        var w := s.Write(footer.value, false, a);
        if w < |footer.value| {
          if w > 0 {
            footer := Some(footer.value[w..]);
            return EAGAIN;
          } else if w == EAGAIN {
            return EAGAIN;
          } else {
            return EFATAL;
          }
        }
      }
      footer := None;
      code := 0;
    }

    /** The file part alone: the range moves on by what was sent, and the file is closed at its end. */
    method SendFile(s: Link, a: Answer) returns (code: int)
      requires Valid() && header == None && file.Some?
      modifies this`file, this`off, this`len, s
      ensures Valid() && header == None
      ensures var r := old(View());
        var w := Written(|r.range|, a);
        && code == (if w < 0 then w else if w < |r.range| then EAGAIN else 0)
        && View() == (if w < 0 then r else r.(range := r.range[w..]))
        && s.wire == old(s.wire) + (if w < 0 then [] else Units(r.range[..w], false))
        && (code == 0 ==> file == None)
    {
      hide Units;
      var w := s.Write(file.value[off..off + len], false, a);
      if w > 0 {
        RangeMoves(file.value, off, len, w);
        off, len := off + w, len - w;
        if len == 0 { file := None; } else { return EAGAIN; }
        code := 0;
      } else {
        code := w;
      }
    }

    method SendRange(s: Link, a: Answer, b: Answer) returns (code: int)
      requires Valid() && header == None
      modifies this`file, this`off, this`len, this`footer, s
      ensures Valid()
      ensures var f := Range(old(View()), a, b); code == f.code && View() == f.rest && s.wire == old(s.wire) + f.sent
    {
      hide Units, Written, Footer;
      if file.Some? {
        code := SendFile(s, a);
        if code != 0 { return; }
      }
      code := SendFooter(s, b);
    }

    /** The header part alone. */
    method SendTop(s: Link, a: Answer) returns (code: int)
      requires Valid() && header.Some?
      modifies this`header, s
      ensures Valid()
      ensures var r := old(View());
        var w := Written(|r.header|, a);
        && code == (if w < 0 then w else if w < |r.header| then EAGAIN else 0)
        && View() == (if w < 0 then r else r.(header := r.header[w..]))
        && s.wire == old(s.wire) + (if w < 0 then [] else Units(r.header[..w], r.urgent))
        && (code == 0 ==> header == None)
    {
      hide Units;
      var w := s.Write(header.value, urgent, a);
      if w < |header.value| {
        if w > 0 {
          header := Some(header.value[w..]);
          return EAGAIN;
        } else if w == EAGAIN {
          return EAGAIN;
        } else {
          return EFATAL;
        }
      }
      header := None;
      code := 0;
    }

    method SendHeader(s: Link, a: Answer, b: Answer, c: Answer) returns (code: int)
      requires Valid()
      modifies this`header, this`file, this`off, this`len, this`footer, s
      ensures Valid()
      ensures var f := Header(old(View()), a, b, c);
        code == f.code && View() == f.rest && s.wire == old(s.wire) + f.sent
    {
      hide Units, Written, Range;
      if header.Some? {
        code := SendTop(s, a);
        if code != 0 { return; }
      }
      code := SendRange(s, b, c);
    }

    /** `server_reply_process` */
    method Send(s: Link, w: World) returns (code: int)
      requires Valid()
      modifies this`header, this`file, this`off, this`len, this`footer, s
      ensures Valid()
      ensures var p := Process(old(View()), s.owner, w);
        code == p.code && View() == p.rest && s.wire == old(s.wire) + p.sent
    {
      hide Header;
      assert s.wire + [] == s.wire;
      if s.owner != token { return EPARAM; }
      if timer != 0 && delay != 0 {
        if timer + delay > w.now { return EDELAY; }
      }
      code := SendHeader(s, w.first, w.second, w.third);
    }
  }
}
