/** Names of one-block files: number, truncated ids, LIB number and a suffix. */
module OneBlockFiles {
  import opened Chain
  import opened ForkDbModel
  import opened ResumeModel
  import opened ResolverModel
  import opened Text

  const DASH := '-'
  const NUM_WIDTH := 10
  const NUM_LIMIT := 10_000_000_000

  function FileName(b: Block, suffix: string): string {
    Join([Padded(b.num, NUM_WIDTH), Truncate(b.id), Truncate(b.parent), Print(b.libNum), suffix], DASH)
  }

  datatype Parsed = Parsed(num: nat, id: string, previous: string, libNum: nat, canonical: string)

  function ParseName(name: string): Result<Parsed> {
    var parts := Split(name, DASH);
    if |parts| != 5 then Err("wrong filename format")
    else
      match ParseUint(parts[0], MAX_UINT32)
      case None => Err("failed parsing num")
      case Some(num) =>
        match ParseUint(parts[3], MAX_UINT32)
        case None => Err("failed parsing lib num")
        case Some(libNum) => Ok(Parsed(num, parts[1], parts[2], libNum, Join(parts[..4], DASH)))
  }

  /** What a name can carry: 32-bit numbers, and no dash inside a field. */
  predicate NameFits(b: Block, suffix: string) {
    && b.num < MAX_UINT32 && b.libNum < MAX_UINT32
    && DASH !in Truncate(b.id) && DASH !in Truncate(b.parent) && DASH !in suffix
  }

  /** A name is read exactly when it can carry its fields, and then every field comes back. */
  lemma NameRoundTrip(b: Block, suffix: string)
    ensures ParseName(FileName(b, suffix)).Ok? <==> NameFits(b, suffix)
    ensures NameFits(b, suffix) ==>
      ParseName(FileName(b, suffix)) == Ok(Parsed(b.num, Truncate(b.id), Truncate(b.parent), b.libNum,
        Join([Padded(b.num, NUM_WIDTH), Truncate(b.id), Truncate(b.parent), Print(b.libNum)], DASH)))
  {
    hide Truncate, Join, Split, Padded, Print, Count;
    var parts := [Padded(b.num, NUM_WIDTH), Truncate(b.id), Truncate(b.parent), Print(b.libNum), suffix];
    PaddedIsRead(b.num, NUM_WIDTH);
    PrintIsRead(b.libNum);
    JoinCount(parts, DASH);
    CountAllZero(parts, DASH);
    if forall p <- parts :: DASH !in p {
      SplitJoin(parts, DASH);
      assert parts[..4] == [Padded(b.num, NUM_WIDTH), Truncate(b.id), Truncate(b.parent), Print(b.libNum)];
    } else {
      assert DASH !in parts[0] && DASH !in parts[3];
    }
  }

  /** What is in a name: ten digits, the last sixteen characters of both ids, the LIB number and the suffix. */
  lemma NameFields(b: Block, suffix: string)
    requires NameFits(b, suffix)
    ensures var fields := Split(FileName(b, suffix), '-');
      && |fields| == 5
      && |fields[0]| == 10 && Value(fields[0]) == Some(b.num)
      && fields[1] == (if |b.id| <= 16 then b.id else b.id[|b.id| - 16..])
      && fields[2] == (if |b.parent| <= 16 then b.parent else b.parent[|b.parent| - 16..])
      && fields[3] == Print(b.libNum) && fields[4] == suffix
  {
    hide Join, Split, Print, Value;
    var parts := [Padded(b.num, NUM_WIDTH), Truncate(b.id), Truncate(b.parent), Print(b.libNum), suffix];
    PaddedIsRead(b.num, NUM_WIDTH);
    PrintIsRead(b.libNum);
    SplitJoin(parts, DASH);
    PowerOfWidth();
    PrintLength(b.num, NUM_WIDTH, NUM_LIMIT);
  }

  // The order in which names are listed

  lemma {:induction false} Below(a: string, b: string, i: nat)
    requires i < |a| && i < |b| && a[..i] == b[..i] && a[i] < b[i]
    ensures IdBelow(a, b)
    decreases i
  {
    if i > 0 {
      assert a[0] == a[..i][0] == b[0];
      assert a[1..][..i - 1] == a[..i][1..] && b[1..][..i - 1] == b[..i][1..];
      Below(a[1..], b[1..], i - 1);
    }
  }

  /** Digit strings of one length are ordered as the numbers they stand for. */
  lemma {:induction false} DigitsOrdered(a: string, b: string)
    requires |a| == |b| && Value(a).Some? && Value(b).Some? && Value(a).value < Value(b).value
    ensures exists i :: 0 <= i < |a| && a[..i] == b[..i] && a[i] < b[i]
    decreases |a|
  {
    var n := |a| - 1;
    var x, y := a[..n], b[..n];
    if x == y {
      assert a[..n] == b[..n] && a[n] < b[n];
    } else {
      if Value(x) == Value(y) {
        SameDigits(x, y);
      }
      DigitsOrdered(x, y);
      var i :| 0 <= i < n && x[..i] == y[..i] && x[i] < y[i];
      assert a[..i] == x[..i] && b[..i] == y[..i];
    }
  }

  lemma {:induction false} SameDigits(a: string, b: string)
    requires |a| == |b| && Value(a).Some? && Value(a) == Value(b)
    ensures a == b
    decreases |a|
  {
    if a != "" {
      var n := |a| - 1;
      SameDigits(a[..n], b[..n]);
      assert a == a[..n] + [a[n]] && b == b[..n] + [b[n]];
    }
  }

  lemma {:induction false} PrintLength(n: nat, width: nat, limit: nat)
    requires width > 0 && limit == Power10(width) && n < limit
    ensures |Print(n)| <= width
    decreases width
  {
    if n >= 10 {
      assert n / 10 < Power10(width - 1);
      PrintLength(n / 10, width - 1, Power10(width - 1));
    }
  }

  function Power10(k: nat): nat { if k == 0 then 1 else 10 * Power10(k - 1) }

  /**
   Below ten digits the listing order of names is the order of their numbers: a listing from a number's
   prefix on holds the files of that number and of higher ones, and no others.
   */
  lemma ListedInOrder(b: Block, suffix: string, n: nat)
    requires b.num < NUM_LIMIT && n < NUM_LIMIT
    ensures !IdBelow(FileName(b, suffix), Padded(n, NUM_WIDTH)) <==> n <= b.num
  {
    hide Padded, IdBelow, Join;
    var x, y := Padded(b.num, NUM_WIDTH), Padded(n, NUM_WIDTH);
    var name := FileName(b, suffix);
    var rest := NameAfter(b, suffix);
    if b.num < n {
      var i := PaddedOrdered(b.num, n);
      assert name[..i] == x[..i];
      Below(name, y, i);
    } else if n < b.num {
      var i := PaddedOrdered(n, b.num);
      assert name[..i] == x[..i];
      Below(y, name, i);
      IdBelowTotal(name, y);
    } else {
      PrefixBelow(x, rest);
      IdBelowTotal(name, y);
    }
  }

  /** What follows the number in a name. */
  lemma NameAfter(b: Block, suffix: string) returns (rest: string)
    ensures FileName(b, suffix) == Padded(b.num, NUM_WIDTH) + rest && rest != ""
  {
    hide Padded, Join;
    var fields := [Truncate(b.id), Truncate(b.parent), Print(b.libNum), suffix];
    var all := [Padded(b.num, NUM_WIDTH)] + fields;
    JoinFront(all, DASH);
    assert all[1..] == fields;
    assert all == [Padded(b.num, NUM_WIDTH), Truncate(b.id), Truncate(b.parent), Print(b.libNum), suffix];
    rest := [DASH] + Join(fields, DASH);
  }

  lemma JoinFront(parts: seq<string>, sep: char)
    requires |parts| > 1
    ensures Join(parts, sep) == parts[0] + [sep] + Join(parts[1..], sep)
  {
  }

  lemma {:induction false} PrefixBelow(a: string, rest: string)
    requires rest != ""
    ensures IdBelow(a, a + rest)
    decreases |a|
  {
    if a != "" {
      PrefixBelow(a[1..], rest);
      assert (a + rest)[1..] == a[1..] + rest;
    }
  }

  lemma PaddedOrdered(m: nat, n: nat) returns (i: nat)
    requires m < n < NUM_LIMIT
    ensures var a, b := Padded(m, NUM_WIDTH), Padded(n, NUM_WIDTH);
      i < |a| && i < |b| && a[..i] == b[..i] && a[i] < b[i]
  {
    hide Print, IdBelow, Value;
    PowerOfWidth();
    PrintLength(m, NUM_WIDTH, NUM_LIMIT);
    PrintLength(n, NUM_WIDTH, NUM_LIMIT);
    PaddedIsRead(m, NUM_WIDTH);
    PaddedIsRead(n, NUM_WIDTH);
    var a, b := Padded(m, NUM_WIDTH), Padded(n, NUM_WIDTH);
    DigitsOrdered(a, b);
    i :| 0 <= i < |a| && a[..i] == b[..i] && a[i] < b[i];
  }

  lemma PowerOfWidth()
    ensures Power10(NUM_WIDTH) == NUM_LIMIT
  {
    assert Power10(5) == 100_000;
    assert Power10(10) == 100_000 * Power10(5);
  }
}
