/**
 * Bit-flag marks: a set of enum constants packed into one 32-bit int, bit `o` standing
 * for the constant whose ordinal is `o` (BitMarkUtil.java). The Java int is modelled as
 * `bv32`: the operations only use `|`, `&`, `~` and `<<`, on which the two agree bit for bit.
 */
module BitMark {
  import opened Wrappers

  /**
   * The ordinal of an enum constant. A mark holds at most 32 flags, so ordinals are 0 to 31:
   * exactly the values of a 5-bit vector.
   */
  type Ordinal = bv5

  /**
   * An enum argument as the Java methods receive it: Null, or the constant with the given
   * ordinal (within one enum type the ordinal identifies the constant).
   */
  datatype Flag = Null | Enum(ordinal: Ordinal)

  /** `1 << ordinal`: the mask with only bit `o` set. */
  function Bit(o: Ordinal): bv32 {
    1 << o
  }

  /** Bit `o` of the mark is 1. */
  predicate HasBit(mark: bv32, o: Ordinal) {
    mark & Bit(o) != 0
  }

  /** `mark | (1 << o)` */
  function SetBit(mark: bv32, o: Ordinal): bv32 {
    mark | Bit(o)
  }

  /** `mark & ~(1 << o)` */
  function ClearBit(mark: bv32, o: Ordinal): bv32 {
    mark & !Bit(o)
  }

  /*
   * Facts about single bits. The solver settles each of them on bit-vectors alone; the
   * lemmas about flags and lists below only combine them.
   */

  lemma BitNonZero(o: Ordinal)
    ensures Bit(o) != 0
  {
  }

  lemma BitsDisjoint(e: Ordinal, o: Ordinal)
    requires e != o
    ensures Bit(e) & Bit(o) == 0
  {
  }

  lemma OrDisjoint(mark: bv32, x: bv32, y: bv32)
    requires x & y == 0
    ensures (mark | x) & y == mark & y
  {
  }

  lemma OrSame(mark: bv32, y: bv32)
    ensures (mark | y) & y == y
  {
  }

  lemma AndNotDisjoint(mark: bv32, x: bv32, y: bv32)
    requires x & y == 0
    ensures (mark & !x) & y == mark & y
  {
  }

  lemma AndNotSame(mark: bv32, y: bv32)
    ensures (mark & !y) & y == 0
  {
  }

  lemma SingleBit(mark: bv32, o: Ordinal)
    requires mark & Bit(o) != 0
    ensures mark & Bit(o) == Bit(o)
  {
  }

  lemma OrAbsorbed(mark: bv32, y: bv32)
    requires mark & y == y
    ensures mark | y == mark
  {
  }

  lemma OrTwice(mark: bv32, y: bv32)
    ensures (mark | y) | y == mark | y
  {
  }

  lemma AndNotTwice(mark: bv32, y: bv32)
    ensures (mark & !y) & !y == mark & !y
  {
  }

  lemma AndNotAfterOr(mark: bv32, y: bv32)
    ensures (mark | y) & !y == mark & !y
  {
  }

  lemma SetBitSame(mark: bv32, o: Ordinal)
    ensures HasBit(SetBit(mark, o), o)
  {
    OrSame(mark, Bit(o));
    BitNonZero(o);
  }

  lemma SetBitOther(mark: bv32, e: Ordinal, o: Ordinal)
    requires e != o
    ensures HasBit(SetBit(mark, e), o) <==> HasBit(mark, o)
  {
    BitsDisjoint(e, o);
    OrDisjoint(mark, Bit(e), Bit(o));
  }

  /** Setting bit `e` sets that bit and leaves every other bit as it was. */
  lemma SetBitBit(mark: bv32, e: Ordinal, o: Ordinal)
    ensures HasBit(SetBit(mark, e), o) <==> e == o || HasBit(mark, o)
  {
    if e == o {
      SetBitSame(mark, o);
    } else {
      SetBitOther(mark, e, o);
    }
  }

  lemma SetBitTwice(mark: bv32, o: Ordinal)
    ensures SetBit(SetBit(mark, o), o) == SetBit(mark, o)
  {
    OrTwice(mark, Bit(o));
  }

  lemma ClearBitTwice(mark: bv32, o: Ordinal)
    ensures ClearBit(ClearBit(mark, o), o) == ClearBit(mark, o)
  {
    AndNotTwice(mark, Bit(o));
  }

  lemma ClearAfterSet(mark: bv32, o: Ordinal)
    ensures ClearBit(SetBit(mark, o), o) == ClearBit(mark, o)
  {
    AndNotAfterOr(mark, Bit(o));
  }

  lemma ClearBitSame(mark: bv32, o: Ordinal)
    ensures !HasBit(ClearBit(mark, o), o)
  {
    AndNotSame(mark, Bit(o));
  }

  lemma ClearBitOther(mark: bv32, e: Ordinal, o: Ordinal)
    requires e != o
    ensures HasBit(ClearBit(mark, e), o) <==> HasBit(mark, o)
  {
    BitsDisjoint(e, o);
    AndNotDisjoint(mark, Bit(e), Bit(o));
  }

  /** Clearing bit `e` clears that bit and leaves every other bit as it was. */
  lemma ClearBitBit(mark: bv32, e: Ordinal, o: Ordinal)
    ensures HasBit(ClearBit(mark, e), o) <==> e != o && HasBit(mark, o)
  {
    if e == o {
      ClearBitSame(mark, o);
    } else {
      ClearBitOther(mark, e, o);
    }
  }

  /** Setting a bit that is already set changes nothing. */
  lemma SetBitPresent(mark: bv32, o: Ordinal)
    requires HasBit(mark, o)
    ensures SetBit(mark, o) == mark
  {
    SingleBit(mark, o);
    OrAbsorbed(mark, Bit(o));
  }

  /** isMark: the flag is non-null and its bit is set. */
  predicate IsMark(mark: bv32, e: Flag) {
    match e
    case Null => false
    case Enum(o) => HasBit(mark, o)
  }

  /** addMark: sets the flag's bit; a null flag leaves the mark as it is. */
  function AddMark(mark: bv32, e: Flag): bv32 {
    match e
    case Null => mark
    case Enum(o) => SetBit(mark, o)
  }

  /** delMark: clears the flag's bit; a null flag leaves the mark as it is. */
  function DelMark(mark: bv32, e: Flag): bv32 {
    match e
    case Null => mark
    case Enum(o) => ClearBit(mark, o)
  }

  /** After addMark the flag is marked, and every other constant is marked as before. */
  lemma AddMarkBit(mark: bv32, e: Flag, o: Ordinal)
    ensures IsMark(AddMark(mark, e), Enum(o)) <==> e == Enum(o) || IsMark(mark, Enum(o))
  {
    match e
    case Null =>
    case Enum(x) => SetBitBit(mark, x, o);
  }

  /** After delMark the flag is not marked, and every other constant is marked as before. */
  lemma DelMarkBit(mark: bv32, e: Flag, o: Ordinal)
    ensures IsMark(DelMark(mark, e), Enum(o)) <==> e != Enum(o) && IsMark(mark, Enum(o))
  {
    match e
    case Null =>
    case Enum(x) => ClearBitBit(mark, x, o);
  }

  /** A null flag is never marked, and addMark and delMark leave the mark as it is. */
  lemma NullFlag(mark: bv32)
    ensures !IsMark(mark, Null)
    ensures AddMark(mark, Null) == mark && DelMark(mark, Null) == mark
  {
  }

  /** Set-then-test: a flag is marked after addMark unless it is null. */
  lemma AddThenTest(mark: bv32, e: Flag)
    ensures IsMark(AddMark(mark, e), e) <==> e.Enum?
  {
    match e
    case Null =>
    case Enum(o) => SetBitSame(mark, o);
  }

  /** Clear-then-test: no flag is marked after delMark. */
  lemma DelThenTest(mark: bv32, e: Flag)
    ensures !IsMark(DelMark(mark, e), e)
  {
    match e
    case Null =>
    case Enum(o) => ClearBitSame(mark, o);
  }

  /** addMark is idempotent. */
  lemma AddMarkTwice(mark: bv32, e: Flag)
    ensures AddMark(AddMark(mark, e), e) == AddMark(mark, e)
  {
    match e
    case Null =>
    case Enum(o) => SetBitTwice(mark, o);
  }

  /** delMark is idempotent. */
  lemma DelMarkTwice(mark: bv32, e: Flag)
    ensures DelMark(DelMark(mark, e), e) == DelMark(mark, e)
  {
    match e
    case Null =>
    case Enum(o) => ClearBitTwice(mark, o);
  }

  /** delMark undoes a preceding addMark of the same flag. */
  lemma DelAfterAdd(mark: bv32, e: Flag)
    ensures DelMark(AddMark(mark, e), e) == DelMark(mark, e)
  {
    match e
    case Null =>
    case Enum(o) => ClearAfterSet(mark, o);
  }

  /**
   * The mark of a list of flags: every non-null flag's bit OR-ed in, in list order, which is
   * what the loop of createMark accumulates.
   */
  function MarkOf(flags: seq<Flag>): bv32 {
    if flags == [] then 0 else AddMark(MarkOf(flags[..|flags| - 1]), flags[|flags| - 1])
  }

  /** A constant is marked in the mark of a list exactly when the list holds it. */
  lemma {:induction false} MarkOfBit(flags: seq<Flag>, o: Ordinal)
    ensures IsMark(MarkOf(flags), Enum(o)) <==> Enum(o) in flags
  {
    if flags != [] {
      var init, last := flags[..|flags| - 1], flags[|flags| - 1];
      assert flags == init + [last];
      MarkOfBit(init, o);
      AddMarkBit(MarkOf(init), last, o);
    }
  }

  lemma MarkOfBits(flags: seq<Flag>)
    ensures forall o: Ordinal :: IsMark(MarkOf(flags), Enum(o)) <==> Enum(o) in flags
  {
    forall o: Ordinal ensures IsMark(MarkOf(flags), Enum(o)) <==> Enum(o) in flags {
      MarkOfBit(flags, o);
    }
  }

  /** OR-ing in the mark of `t` changes nothing when every flag of `t` is already in `s`. */
  lemma {:induction false} MarkOfAbsorbs(s: seq<Flag>, t: seq<Flag>)
    requires forall o: Ordinal :: Enum(o) in t ==> Enum(o) in s
    ensures MarkOf(s) | MarkOf(t) == MarkOf(s)
  {
    if t != [] {
      var init, last := t[..|t| - 1], t[|t| - 1];
      assert t == init + [last];
      MarkOfAbsorbs(s, init);
      match last
      case Null =>
      case Enum(o) =>
        MarkOfBit(s, o);
        SetBitPresent(MarkOf(s), o);
        assert MarkOf(s) | (MarkOf(init) | Bit(o)) == (MarkOf(s) | MarkOf(init)) | Bit(o);
    }
  }

  /** createMark does not depend on the order of the collection or on repeated elements. */
  lemma MarkOfIgnoresOrder(s: seq<Flag>, t: seq<Flag>)
    requires forall o: Ordinal :: Enum(o) in s <==> Enum(o) in t
    ensures MarkOf(s) == MarkOf(t)
  {
    MarkOfAbsorbs(s, t);
    MarkOfAbsorbs(t, s);
  }

  /**
   * createMark: 0 for a null or empty collection; otherwise the bits of the non-null elements.
   */
  method CreateMark(enums: Option<seq<Flag>>) returns (mark: bv32)
    ensures enums.None? ==> mark == 0
    ensures enums.Some? ==> mark == MarkOf(enums.value)
    ensures forall o: Ordinal :: IsMark(mark, Enum(o)) <==> enums.Some? && Enum(o) in enums.value
  {
    if enums.None? || |enums.value| == 0 {
      return 0;
    }
    var flags := enums.value;
    mark := 0;
    for i := 0 to |flags|
      invariant mark == MarkOf(flags[..i])
    {
      assert flags[..i + 1][..i] == flags[..i];
      if flags[i].Null? {
        continue;
      }
      mark := SetBit(mark, flags[i].ordinal);
    }
    assert flags[..|flags|] == flags;
    MarkOfBits(flags);
  }
}

/**
 * The stateful wrapper of BitMarkUtil.java: BitMarkFunction and the two generateBitMarkFunction
 * factories.
 */
module BitMarkFunctions {
  import opened Wrappers
  import opened BitMark

  /** generateBitMarkFunction(Collection): a holder whose mark is createMark of the collection. */
  method GenerateBitMarkFunction(enums: Option<seq<Flag>>) returns (f: BitMarkFunction)
    ensures fresh(f)
    ensures f.mark == if enums.None? then 0 else MarkOf(enums.value)
  {
    var mark := CreateMark(enums);
    f := new BitMarkFunction(mark);
  }

  /** generateBitMarkFunction(int): a holder of the given mark. */
  method GenerateBitMarkFunctionOfMark(mark: bv32) returns (f: BitMarkFunction)
    ensures fresh(f) && f.mark == mark
  {
    f := new BitMarkFunction(mark);
  }

  /** BitMarkFunction: a mutable holder of one mark. */
  class BitMarkFunction {
    var mark: bv32

    constructor (mark: bv32)
      ensures this.mark == mark
    {
      this.mark := mark;
    }

    /** isMark on the held mark; the holder is not changed. */
    method IsMark(e: Flag) returns (r: bool)
      ensures r <==> e.Enum? && HasBit(mark, e.ordinal)
    {
      r := BitMark.IsMark(mark, e);
    }

    /** addMark: stores the new mark and returns it. */
    method AddMark(e: Flag) returns (r: bv32)
      modifies this
      ensures mark == BitMark.AddMark(old(mark), e)
      ensures r == mark
    {
      mark := BitMark.AddMark(mark, e);
      r := mark;
    }

    /** delMark: stores the new mark and returns it. */
    method DelMark(e: Flag) returns (r: bv32)
      modifies this
      ensures mark == BitMark.DelMark(old(mark), e)
      ensures r == mark
    {
      mark := BitMark.DelMark(mark, e);
      r := mark;
    }

    method GetMark() returns (r: bv32)
      ensures r == mark
    {
      r := mark;
    }
  }

  /** The scenario of BitMarkUtilTest with ONE, TWO, THREE at ordinals 0, 1, 2. */
  method BitMarkFunctionScenario() {
    var one, two, three: Flag := Enum(0), Enum(1), Enum(2);
    assert MarkOf([one]) == 0x1;
    assert MarkOf([one, three]) == 0x5;
    var f := GenerateBitMarkFunction(Some([one, three]));
    var m := f.GetMark();
    assert m == 0x5;  // binary 101
    m := f.DelMark(one);
    assert m == 0x4;  // binary 100
    m := f.AddMark(two);
    assert m == 0x6;  // binary 110
    var set3 := f.IsMark(three);
    assert set3;
    var set1 := f.IsMark(one);
    assert !set1;
  }
}
