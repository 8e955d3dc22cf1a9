/** The text form of a cursor. */
module CursorText {
  import opened Chain
  import opened Consumers
  import opened ResumeModel
  import opened Text

  const COLON := ':'

  function ToText(c: Cursor): string {
    var step, num, id := Print(c.step.Code()), Print(c.block.num), c.block.id;
    if c.head.id == id then Join(["c1", step, num, id, Print(c.lib.num), c.lib.id], COLON)
    else if id == c.lib.id then Join(["c2", step, num, id, Print(c.head.num), c.head.id], COLON)
    else Join(["c3", step, num, id, Print(c.head.num), c.head.id, Print(c.lib.num), c.lib.id], COLON)
  }

  /** A signed 64-bit number. */
  function ParseInt(s: string): Option<int> {
    var signed := s != "" && (s[0] == '+' || s[0] == '-');
    var limit := MAX_UINT64 / 2;
    match ParseUint(if signed then s[1..] else s, MAX_UINT64)
    case None => None
    case Some(v: int) =>
      if signed && s[0] == '-' then if v <= limit then Some(0 - v) else None
      else if v < limit then Some(v) else None
  }

  function ReadStep(part: string): Result<StepType> {
    match ParseInt(part)
    case None => Err("invalid cursor step")
    case Some(v) =>
      if v == New.Code() then Ok(New)
      else if v == Undo.Code() then Ok(Undo)
      else if v == Irreversible.Code() then Ok(Irreversible)
      else if v == NewIrreversible.Code() then Ok(NewIrreversible)
      else Err("invalid step")
  }

  function ReadRef(num: string, id: string): Result<Ref> {
    match ParseUint(num, MAX_UINT64)
    case None => Err("invalid block num")
    case Some(v) => Ok(Ref(id, v))
  }

  /** Step and block, and then as many more references as there are fields left. */
  function ReadFields(parts: seq<string>): Result<(StepType, Ref, Ref)>
    requires |parts| >= 6
  {
    match ReadStep(parts[1])
    case Err(e) => Err(e)
    case Ok(step) =>
      match ReadRef(parts[2], parts[3])
      case Err(e) => Err(e)
      case Ok(block) =>
        match ReadRef(parts[4], parts[5])
        case Err(e) => Err(e)
        case Ok(other) => Ok((step, block, other))
  }

  function FromText(text: string): Result<Cursor> {
    var parts := Split(text, COLON);
    if |parts| < 6 then Err("invalid cursor: too short")
    else if parts[0] == "c1" then
      if |parts| != 6 then Err("invalid cursor: invalid number of segments")
      else
        match ReadFields(parts)
        case Err(e) => Err(e)
        case Ok((step, block, lib)) => Ok(Cursor(step, block, block, lib))
    else if parts[0] == "c2" then
      if |parts| != 6 then Err("invalid cursor: invalid number of segments")
      else
        match ReadFields(parts)
        case Err(e) => Err(e)
        case Ok((step, block, head)) => Ok(Cursor(step, block, head, block))
    else if parts[0] == "c3" then
      if |parts| != 8 then Err("invalid cursor: invalid number of segments")
      else
        match ReadFields(parts)
        case Err(e) => Err(e)
        case Ok((step, block, head)) =>
          match ReadRef(parts[6], parts[7])
          case Err(e) => Err(e)
          case Ok(lib) => Ok(Cursor(step, block, head, lib))
    else Err("invalid cursor: invalid prefix")
  }

  predicate RefFits(r: Ref) { r.num < MAX_UINT64 }

  predicate NoColon(r: Ref) { COLON !in r.id }

  /** Where the short forms leave out a number, the one kept stands for it. */
  predicate SameIdsSameNumbers(c: Cursor) {
    && (c.head.id == c.block.id ==> c.head.num == c.block.num)
    && (c.head.id != c.block.id && c.block.id == c.lib.id ==> c.lib.num == c.block.num)
  }

  lemma DigitsHaveNoColon(n: nat)
    ensures COLON !in Print(n)
  {
    PrintIsRead(n);
  }

  lemma StepIsRead(step: StepType)
    ensures ReadStep(Print(step.Code())) == (if step == Stalled then Err("invalid step") else Ok(step))
  {
    PrintIsRead(step.Code());
  }

  lemma RefIsRead(r: Ref)
    requires RefFits(r)
    ensures ReadRef(Print(r.num), r.id) == Ok(r)
  {
    PrintIsRead(r.num);
  }

  lemma FieldsAreRead(form: string, step: StepType, block: Ref, other: Ref, more: seq<string>)
    requires RefFits(block) && RefFits(other)
    ensures var parts := [form, Print(step.Code()), Print(block.num), block.id, Print(other.num), other.id] + more;
      ReadFields(parts) == (if step == Stalled then Err("invalid step") else Ok((step, block, other)))
      && (more == [] ==> parts == [form, Print(step.Code()), Print(block.num), block.id, Print(other.num), other.id])
  {
    hide Print, ReadStep, ReadRef;
    StepIsRead(step);
    RefIsRead(block);
    RefIsRead(other);
  }

  lemma ShortSplits(form: string, step: StepType, block: Ref, other: Ref)
    requires COLON !in form && NoColon(block) && NoColon(other)
    ensures var parts := [form, Print(step.Code()), Print(block.num), block.id, Print(other.num), other.id];
      Split(Join(parts, COLON), COLON) == parts
  {
    hide Print, Split, Join;
    var parts := [form, Print(step.Code()), Print(block.num), block.id, Print(other.num), other.id];
    DigitsHaveNoColon(step.Code());
    DigitsHaveNoColon(block.num);
    DigitsHaveNoColon(other.num);
    SplitJoin(parts, COLON);
  }

  lemma LongSplits(form: string, step: StepType, block: Ref, head: Ref, lib: Ref)
    requires COLON !in form && NoColon(block) && NoColon(head) && NoColon(lib)
    ensures var parts := [form, Print(step.Code()), Print(block.num), block.id, Print(head.num), head.id, Print(lib.num), lib.id];
      Split(Join(parts, COLON), COLON) == parts
  {
    hide Print, Split, Join;
    var parts := [form, Print(step.Code()), Print(block.num), block.id, Print(head.num), head.id, Print(lib.num), lib.id];
    DigitsHaveNoColon(step.Code());
    DigitsHaveNoColon(block.num);
    DigitsHaveNoColon(head.num);
    DigitsHaveNoColon(lib.num);
    SplitJoin(parts, COLON);
  }

  /** A colon inside a field leaves the form readable and makes the number of fields wrong. */
  lemma ColonIsNoticed(parts: seq<string>)
    requires |parts| > 1 && COLON !in parts[0] && exists p <- parts :: COLON in p
    ensures var back := Split(Join(parts, COLON), COLON); |back| > |parts| && back[0] == parts[0]
  {
    hide Split, Count;
    JoinCount(parts, COLON);
    CountAllZero(parts, COLON);
    SplitFront(parts[0], Join(parts[1..], COLON), COLON);
  }

  lemma ColonFails(c: Cursor)
    requires !NoColon(c.block) || !NoColon(c.head) || !NoColon(c.lib)
    ensures FromText(ToText(c)).Err?
  {
    hide Print, Split, Join, ReadFields;
    var step, num, id := Print(c.step.Code()), Print(c.block.num), c.block.id;
    var parts :=
      if c.head.id == id then ["c1", step, num, id, Print(c.lib.num), c.lib.id]
      else if id == c.lib.id then ["c2", step, num, id, Print(c.head.num), c.head.id]
      else ["c3", step, num, id, Print(c.head.num), c.head.id, Print(c.lib.num), c.lib.id];
    assert id in parts && (c.head.id == id || c.head.id in parts) && (c.lib.id == id || c.lib.id in parts);
    ColonIsNoticed(parts);
  }

  /**
   A cursor comes back from its text exactly when its step can be read, no id holds a colon, and equal ids
   carry equal numbers wherever a short form relies on it.
   */
  lemma TextRoundTrip(c: Cursor)
    requires RefFits(c.block) && RefFits(c.head) && RefFits(c.lib)
    ensures FromText(ToText(c)) == Ok(c) <==>
      c.step != Stalled && NoColon(c.block) && NoColon(c.head) && NoColon(c.lib) && SameIdsSameNumbers(c)
  {
    if NoColon(c.block) && NoColon(c.head) && NoColon(c.lib) {
      PlainRoundTrip(c);
    } else {
      ColonFails(c);
    }
  }

  lemma PlainRoundTrip(c: Cursor)
    requires RefFits(c.block) && RefFits(c.head) && RefFits(c.lib) && NoColon(c.block) && NoColon(c.head) && NoColon(c.lib)
    ensures FromText(ToText(c)) == Ok(c) <==> c.step != Stalled && SameIdsSameNumbers(c)
  {
    hide Print, Split, Join, ReadFields, RefFits, NoColon;
    if c.head.id == c.block.id {
      ShortSplits("c1", c.step, c.block, c.lib);
      FieldsAreRead("c1", c.step, c.block, c.lib, []);
    } else if c.block.id == c.lib.id {
      ShortSplits("c2", c.step, c.block, c.head);
      FieldsAreRead("c2", c.step, c.block, c.head, []);
    } else {
      LongSplits("c3", c.step, c.block, c.head, c.lib);
      FieldsAreRead("c3", c.step, c.block, c.head, [Print(c.lib.num), c.lib.id]);
      RefIsRead(c.lib);
      var short := ["c3", Print(c.step.Code()), Print(c.block.num), c.block.id, Print(c.head.num), c.head.id];
      assert ["c3", Print(c.step.Code()), Print(c.block.num), c.block.id, Print(c.head.num), c.head.id, Print(c.lib.num), c.lib.id]
          == short + [Print(c.lib.num), c.lib.id];
    }
  }

  // What is on the wire

  /** The form and the step of any cursor, as they are written. */
  lemma FormAndStep(c: Cursor)
    ensures var fields := Split(ToText(c), ':');
      && |fields| >= 6
      && fields[0] == (if c.head.id == c.block.id then "c1" else if c.block.id == c.lib.id then "c2" else "c3")
      && fields[1] == match c.step
                      case New => "1"
                      case Undo => "2"
                      case Irreversible => "16"
                      case NewIrreversible => "17"
                      case Stalled => "32"
  {
    CodesPrinted(c.step);
    hide Print, Split;
    var step, num, id := Print(c.step.Code()), Print(c.block.num), c.block.id;
    var parts :=
      if c.head.id == id then ["c1", step, num, id, Print(c.lib.num), c.lib.id]
      else if id == c.lib.id then ["c2", step, num, id, Print(c.head.num), c.head.id]
      else ["c3", step, num, id, Print(c.head.num), c.head.id, Print(c.lib.num), c.lib.id];
    DigitsHaveNoColon(c.step.Code());
    JoinCount(parts, COLON);
    SplitFront(parts[0], Join(parts[1..], COLON), COLON);
    SplitFront(step, Join(parts[2..], COLON), COLON);
    assert parts[1..][1..] == parts[2..] && parts[1..][0] == step;
  }

  lemma CodesPrinted(step: StepType)
    ensures Print(step.Code()) == match step
                                  case New => "1"
                                  case Undo => "2"
                                  case Irreversible => "16"
                                  case NewIrreversible => "17"
                                  case Stalled => "32"
  {
    assert Print(1) == "1" && Print(2) == "2" && Print(3) == "3";
    assert Print(16) == "1" + "6" && Print(17) == "1" + "7" && Print(32) == "3" + "2";
  }

  /** All fields, in the order in which they are written. */
  lemma FieldsWritten(c: Cursor)
    requires NoColon(c.block) && NoColon(c.head) && NoColon(c.lib)
    ensures var fields, block := Split(ToText(c), ':'), [Print(c.block.num), c.block.id];
      var head, lib := [Print(c.head.num), c.head.id], [Print(c.lib.num), c.lib.id];
      |fields| >= 6 && fields[2..] == if fields[0] == "c1" then block + lib else if fields[0] == "c2" then block + head else block + head + lib
  {
    hide Print, Split, Join, NoColon;
    if c.head.id == c.block.id {
      ShortSplits("c1", c.step, c.block, c.lib);
    } else if c.block.id == c.lib.id {
      ShortSplits("c2", c.step, c.block, c.head);
    } else {
      LongSplits("c3", c.step, c.block, c.head, c.lib);
    }
  }
}
