/** The condition on the clock is needed: a run in which it goes back and the bytes of two replies are mixed. */
module ClockWitness {
  import opened Bits
  import opened Delivery
  import opened Responder

  function Late(): Reply {
    Reply(0, 1, 1, false, false, false, [1, 2], [], [])
  }

  function Plain(): Reply {
    Reply(0, 0, 0, false, false, false, [3], [], [])
  }

  function At(now: nat): Choice {
    Move(World(now, Takes(1), NoRoom, NoRoom), false)
  }

  lemma RunOneMore(owner: nat, cs: seq<Choice>, c: Choice)
    ensures Run(owner, cs + [c]) == Step(Run(owner, cs), c)
  {
    assert (cs + [c])[..|cs|] == cs;
  }

  /** The first attempt, at time 5, sends one byte of the delayed reply. */
  lemma FirstByte(left: Reply)
    requires left == Late()
    ensures Process(left, 0, World(5, Takes(1), NoRoom, NoRoom)) ==
      Attempt(EAGAIN, left.(header := [2]), [Unit(1, false)])
  {
    assert left.header[..1] == [1] && left.header[1..] == [2];
    UnitsOne(1);
  }

  lemma UnitsOne(b: byte)
    ensures Units([b], false) == [Unit(b, false)]
  {
    assert [b][..0] == [];
  }

  lemma WholeOther(left: Reply)
    requires left == Plain()
    ensures Process(left, 0, World(0, Takes(1), NoRoom, NoRoom)) ==
      Attempt(0, left.(header := []), [Unit(3, false)])
  {
    assert left.header[..1] == [3] && left.header[1..] == [];
    UnitsOne(3);
    assert [Unit(3, false)] + [] == [Unit(3, false)];
  }

  function First(): Job {
    Job(0, Remaining(Late()), Late())
  }

  /** The delayed reply without its first byte. */
  function Begun(): Job {
    First().(left := Late().(header := [2]))
  }

  function Second(): Job {
    Job(1, Remaining(Plain()), Plain())
  }

  function Sent(): Job {
    Second().(left := Plain().(header := []))
  }

  function Both(queue: seq<Job>, place: Place, wire: seq<Mark>, clock: nat): State {
    State(0, queue, place, wire, clock, [First(), Second()], [], [], [])
  }

  const ONE := Mark(0, Unit(1, false))
  const THREE := Mark(1, Unit(3, false))

  lemma MarksOne(id: nat, u: Unit)
    ensures Marks(id, [u]) == [Mark(id, u)]
  {
    assert [u][..0] == [];
  }

  /** Both replies are queued, the first is taken, and one byte of it is sent. */
  lemma Opening(s: State)
    requires s == Init(0)
    ensures Step(Step(Step(Step(s, Queue(Late())), Queue(Plain())), At(5)), At(5))
         == Both([Second()], Hand(First()), [], 0)
  {
    hide Remaining;
    assert [] + [First()] == [First()];
    assert [First()] + [Second()] == [First(), Second()];
    assert [First(), Second()][1..] == [Second()];
  }

  lemma SendsOne(s: State)
    requires s == Both([Second()], Hand(First()), [], 0)
    ensures Step(s, At(5)) == Both([Second()], PutBack(Begun()), [ONE], 5)
  {
    hide Remaining, Process, Marks;
    FirstByte(Late());
    MarksOne(0, Unit(1, false));
    assert [] + [ONE] == [ONE];
  }

  /** It is put back, taken again, and now it has to wait: it goes to the end. */
  lemma TakesAgain(s: State)
    requires s == Both([Second()], PutBack(Begun()), [ONE], 5)
    ensures Step(Step(Step(s, At(5)), At(5)), At(5)) == Both([Second()], Hand(Begun()), [ONE], 5)
  {
    hide Remaining;
    assert [Begun()] + [Second()] == [Begun(), Second()];
    assert [Begun(), Second()][1..] == [Second()];
  }

  lemma GoesToTheEnd(s: State)
    requires s == Both([Second()], Hand(Begun()), [ONE], 5)
    ensures Step(Step(Step(Step(s, At(0)), At(0)), At(0)), At(0)) == Both([Begun()], Hand(Second()), [ONE], 0)
  {
    hide Remaining, Header;
    assert [ONE] + Marks(0, []) == [ONE];
    assert [Second()] + [Begun()] == [Second(), Begun()];
    assert [Second(), Begun()][1..] == [Begun()];
  }

  lemma SendsThree(s: State)
    requires s == Both([Begun()], Hand(Second()), [ONE], 0)
    ensures Step(Step(s, At(0)), At(0)).done == [Sent()]
    ensures Step(Step(s, At(0)), At(0)).wire == [ONE, THREE]
  {
    hide Remaining, Process, Marks;
    WholeOther(Plain());
    MarksOne(1, Unit(3, false));
    assert [ONE] + [THREE] == [ONE, THREE];
    assert [] + [Sent()] == [Sent()];
  }

  lemma NotInOrder(done: seq<Job>, wire: seq<Mark>)
    requires done == [Sent()] && wire == [ONE, THREE]
    ensures !(Flat(done) <= UnitsOf(wire))
  {
    assert done[..0] == [];
    assert wire[..1] == [ONE] && [ONE][..0] == [];
    assert Flat(done) == Remaining(Plain());
    UnitsOne(3);
    assert Remaining(Plain())[0] == Unit(3, false);
    assert UnitsOf(wire)[0] == Unit(1, false);
  }

  lemma RunTwoMore(owner: nat, cs: seq<Choice>, a: Choice, b: Choice)
    ensures Run(owner, cs + [a, b]) == Step(Step(Run(owner, cs), a), b)
  {
    hide Run, Step;
    RunOneMore(owner, cs, a);
    RunOneMore(owner, cs + [a], b);
    assert cs + [a] + [b] == cs + [a, b];
  }

  lemma RunFourMore(owner: nat, cs: seq<Choice>, a: Choice, b: Choice, c: Choice, d: Choice)
    ensures Run(owner, cs + [a, b, c, d]) == Step(Step(Step(Step(Run(owner, cs), a), b), c), d)
  {
    hide Run, Step;
    RunTwoMore(owner, cs, a, b);
    RunTwoMore(owner, cs + [a, b], c, d);
    assert cs + [a, b] + [c, d] == cs + [a, b, c, d];
  }

  ghost predicate Mixed(s: State) {
    !(Flat(s.done) <= UnitsOf(s.wire))
  }

  /**
   * The system clock of the second attempt reads 0 after the first one read 5: the reply waits again with one byte
   * sent, and another reply is completed behind that byte.
   */
  lemma ClockMustNotGoBack()
    ensures exists cs :: Mixed(Run(0, cs))
  {
    hide Run, Step, Mixed, Flat, UnitsOf;
    var start: seq<Choice> := [];
    RunNothing(0);
    RunFourMore(0, start, Queue(Late()), Queue(Plain()), At(5), At(5));
    Opening(Init(0));
    var began := start + [Queue(Late()), Queue(Plain()), At(5), At(5)];
    RunFourMore(0, began, At(5), At(5), At(5), At(5));
    SendsOne(Run(0, began));
    TakesAgain(Step(Run(0, began), At(5)));
    var again := began + [At(5), At(5), At(5), At(5)];
    RunFourMore(0, again, At(0), At(0), At(0), At(0));
    GoesToTheEnd(Run(0, again));
    var rotated := again + [At(0), At(0), At(0), At(0)];
    RunTwoMore(0, rotated, At(0), At(0));
    SendsThree(Run(0, rotated));
    MixedNow(Run(0, rotated + [At(0), At(0)]));
  }

  lemma MixedNow(s: State)
    requires s.done == [Sent()] && s.wire == [ONE, THREE]
    ensures Mixed(s)
  {
    NotInOrder(s.done, s.wire);
  }

  lemma RunNothing(owner: nat)
    ensures Run(owner, []) == Init(owner)
  {
  }
}
