/**
 * Rendering one z-layer of the cube onto the four 8-bit output ports
 * (`zrow`), and the interlaced order in which a frame scans the layers.
 *
 * Each layer has 25 column lines, one per (x, y), and the cube has 5
 * layer-select strobes; together with two spare bits they fill the 32 bits
 * of ports A to D.
 */
module Display {

  import opened Bits
  import opened Voxels

  /** The four output ports. */
  datatype Port = A | B | C | D

  /** The words written to PORTA, PORTB, PORTC and PORTD for one layer. */
  datatype Words = Words(a: bv8, b: bv8, c: bv8, d: bv8)

  function Word(w: Words, p: Port): bv8 {
    match p
    case A => w.a
    case B => w.b
    case C => w.c
    case D => w.d
  }

  /** One bit of one port. */
  datatype Slot = Slot(port: Port, bit: nat)

  predicate ValidSlot(s: Slot) {
    s.bit < 8
  }

  predicate IsSet(w: Words, s: Slot)
    requires ValidSlot(s)
  {
    Bit(Word(w, s.port), s.bit)
  }

  /** 1 when `b` holds, as C converts a comparison to an integer. */
  function Truth(b: bool): U8 {
    if b then 1 else 0
  }

  /** The port bit that carries the column line of (x, y). */
  function CellSlot(x: int, y: int): (s: Slot)
    requires 0 <= x < Side && 0 <= y < Side
    ensures ValidSlot(s)
  {
    match (x, y)
    case (0, 0) => Slot(B, 2)
    case (0, 1) => Slot(A, 1)
    case (0, 2) => Slot(B, 1)
    case (0, 3) => Slot(A, 0)
    case (0, 4) => Slot(A, 2)
    case (1, 0) => Slot(A, 6)
    case (1, 1) => Slot(A, 5)
    case (1, 2) => Slot(A, 4)
    case (1, 3) => Slot(A, 3)
    case (1, 4) => Slot(B, 0)
    case (2, 0) => Slot(A, 7)
    case (2, 1) => Slot(C, 7)
    case (2, 2) => Slot(C, 6)
    case (2, 3) => Slot(C, 5)
    case (2, 4) => Slot(C, 4)
    case (3, 0) => Slot(C, 3)
    case (3, 1) => Slot(D, 2)
    case (3, 2) => Slot(C, 2)
    case (3, 3) => Slot(D, 3)
    case (3, 4) => Slot(C, 1)
    case (4, 0) => Slot(D, 6)
    case (4, 1) => Slot(D, 5)
    case (4, 2) => Slot(D, 4)
    case (4, 3) => Slot(D, 7)
    case _ => Slot(C, 0)
  }

  /** The port bit that carries the select strobe of layer `k`. */
  function StrobeSlot(k: int): (s: Slot)
    requires 0 <= k < Side
    ensures ValidSlot(s)
  {
    match k
    case 0 => Slot(B, 5)
    case 1 => Slot(B, 3)
    case 2 => Slot(D, 1)
    case 3 => Slot(D, 0)
    case _ => Slot(B, 4)
  }

  /** A column coordinate of the cube. */
  type Coord = c: int | 0 <= c < Side

  /** What drives a port bit: a column line, a layer strobe, or nothing. */
  datatype Line = Column(x: Coord, y: Coord) | Strobe(layer: int) | Spare

  /** The wiring read the other way round: the line each of the 32 port bits carries. */
  function Wiring(s: Slot): Line
    requires ValidSlot(s)
  {
    match s.port
    case A => [Column(0, 3), Column(0, 1), Column(0, 4), Column(1, 3),
               Column(1, 2), Column(1, 1), Column(1, 0), Column(2, 0)][s.bit]
    case B => [Column(1, 4), Column(0, 2), Column(0, 0), Strobe(1),
               Strobe(4), Strobe(0), Spare, Spare][s.bit]
    case C => [Column(4, 4), Column(3, 4), Column(3, 2), Column(3, 0),
               Column(2, 4), Column(2, 3), Column(2, 2), Column(2, 1)][s.bit]
    case D => [Strobe(3), Strobe(2), Column(3, 1), Column(3, 3),
               Column(4, 2), Column(4, 1), Column(4, 0), Column(4, 3)][s.bit]
  }

  /**
   * The value `zrow` hands to `bitfield` for line `l` while showing layer
   * `z`: the voxel's age for a column line, `z == k` for the strobe of
   * layer k, and 0 for a spare bit.
   */
  function Level(f: Field, z: int, l: Line): U8
    requires 0 <= z < Side
  {
    match l
    case Column(x, y) => At(f, Pos(x, y, z))
    case Strobe(k) => Truth(z == k)
    case Spare => 0
  }

  /** The word `bitfield` packs for port `p`, from the lines wired to its bits 0 to 7. */
  function PortWord(f: Field, z: int, p: Port): bv8
    requires 0 <= z < Side
  {
    Bitfield(Level(f, z, Wiring(Slot(p, 0))), Level(f, z, Wiring(Slot(p, 1))),
             Level(f, z, Wiring(Slot(p, 2))), Level(f, z, Wiring(Slot(p, 3))),
             Level(f, z, Wiring(Slot(p, 4))), Level(f, z, Wiring(Slot(p, 5))),
             Level(f, z, Wiring(Slot(p, 6))), Level(f, z, Wiring(Slot(p, 7))))
  }

  /** The register writes of `zrow`: the four port words that show layer `z` of `f`. */
  function Zrow(f: Field, z: int): (w: Words)
    requires 0 <= z < Side
    ensures !Bit(w.b, 6) && !Bit(w.b, 7)
  {
    Words(PortWord(f, z, A), PortWord(f, z, B), PortWord(f, z, C), PortWord(f, z, D))
  }

  /** Reading back the bit a column or strobe is assigned gives that column or strobe. */
  lemma SlotsDecode()
    ensures forall x, y | 0 <= x < Side && 0 <= y < Side :: Wiring(CellSlot(x, y)) == Column(x, y)
    ensures forall k | 0 <= k < Side :: Wiring(StrobeSlot(k)) == Strobe(k)
  {
  }

  /**
   * Every port bit is accounted for exactly once: it is the slot of the
   * column, or of the strobe, that it carries, or one of the two spare bits.
   */
  lemma SlotsEncode(s: Slot)
    requires ValidSlot(s)
    ensures Wiring(s).Column? ==>
              0 <= Wiring(s).x < Side && 0 <= Wiring(s).y < Side && CellSlot(Wiring(s).x, Wiring(s).y) == s
    ensures Wiring(s).Strobe? ==> 0 <= Wiring(s).layer < Side && StrobeSlot(Wiring(s).layer) == s
    ensures Wiring(s).Spare? <==> s == Slot(B, 6) || s == Slot(B, 7)
  {
  }

  /**
   * The 25 columns of a layer sit on 25 distinct port bits, none of which is
   * a strobe or a spare bit, and the 5 strobes sit on 5 distinct bits.
   */
  lemma SlotsDistinct(x: int, y: int, x': int, y': int, k: int, k': int)
    requires 0 <= x < Side && 0 <= y < Side && 0 <= x' < Side && 0 <= y' < Side
    requires 0 <= k < Side && 0 <= k' < Side
    ensures CellSlot(x, y) == CellSlot(x', y') ==> x == x' && y == y'
    ensures CellSlot(x, y) != StrobeSlot(k)
    ensures StrobeSlot(k) == StrobeSlot(k') ==> k == k'
    ensures CellSlot(x, y) != Slot(B, 6) && CellSlot(x, y) != Slot(B, 7)
    ensures StrobeSlot(k) != Slot(B, 6) && StrobeSlot(k) != Slot(B, 7)
  {
    SlotsDecode();
    assert Wiring(CellSlot(x, y)) == Column(x, y);
    assert Wiring(CellSlot(x', y')) == Column(x', y');
    assert Wiring(StrobeSlot(k)) == Strobe(k);
    assert Wiring(StrobeSlot(k')) == Strobe(k');
  }

  /** Bit i of the word for port `p` is set exactly when the line wired to it is driven. */
  lemma PortWordBit(f: Field, z: int, p: Port, i: nat)
    requires 0 <= z < Side && i < 8
    ensures Bit(PortWord(f, z, p), i) <==> Level(f, z, Wiring(Slot(p, i))) != 0
  {
    var w := PortWord(f, z, p);
    match i
    case 0 => assert Bit(w, 0) <==> Level(f, z, Wiring(Slot(p, 0))) != 0;
    case 1 => assert Bit(w, 1) <==> Level(f, z, Wiring(Slot(p, 1))) != 0;
    case 2 => assert Bit(w, 2) <==> Level(f, z, Wiring(Slot(p, 2))) != 0;
    case 3 => assert Bit(w, 3) <==> Level(f, z, Wiring(Slot(p, 3))) != 0;
    case 4 => assert Bit(w, 4) <==> Level(f, z, Wiring(Slot(p, 4))) != 0;
    case 5 => assert Bit(w, 5) <==> Level(f, z, Wiring(Slot(p, 5))) != 0;
    case 6 => assert Bit(w, 6) <==> Level(f, z, Wiring(Slot(p, 6))) != 0;
    case 7 => assert Bit(w, 7) <==> Level(f, z, Wiring(Slot(p, 7))) != 0;
  }

  /** Bit by bit, the words for layer `z` drive exactly the lines the wiring assigns. */
  lemma ZrowFollowsWiring(f: Field, z: int, s: Slot)
    requires 0 <= z < Side && ValidSlot(s)
    ensures IsSet(Zrow(f, z), s) <==> Level(f, z, Wiring(s)) != 0
  {
    assert Word(Zrow(f, z), s.port) == PortWord(f, z, s.port);
    PortWordBit(f, z, s.port, s.bit);
  }

  /**
   * The words for layer `z` as the display sees them: the column line of
   * (x, y) is high exactly when voxel (x, y, z) is lit, the strobe of layer k
   * is high exactly when k is `z` (so one strobe in all), and PORTB bits 6
   * and 7 stay low.
   */
  lemma ZrowShowsLayer(f: Field, z: int)
    requires 0 <= z < Side
    ensures forall x, y | 0 <= x < Side && 0 <= y < Side ::
      IsSet(Zrow(f, z), CellSlot(x, y)) <==> At(f, Pos(x, y, z)) != 0
    ensures forall k | 0 <= k < Side :: IsSet(Zrow(f, z), StrobeSlot(k)) <==> k == z
    ensures !IsSet(Zrow(f, z), Slot(B, 6)) && !IsSet(Zrow(f, z), Slot(B, 7))
  {
    SlotsDecode();
    forall x, y | 0 <= x < Side && 0 <= y < Side
      ensures IsSet(Zrow(f, z), CellSlot(x, y)) <==> At(f, Pos(x, y, z)) != 0
    {
      ZrowFollowsWiring(f, z, CellSlot(x, y));
    }
    forall k | 0 <= k < Side
      ensures IsSet(Zrow(f, z), StrobeSlot(k)) <==> k == z
    {
      ZrowFollowsWiring(f, z, StrobeSlot(k));
    }
    ZrowFollowsWiring(f, z, Slot(B, 6));
    ZrowFollowsWiring(f, z, Slot(B, 7));
  }

  /** The columns of layer `z` whose voxel is lit. */
  function LitColumns(f: Field, z: int): set<(int, int)>
    requires 0 <= z < Side
  {
    set x, y | 0 <= x < Side && 0 <= y < Side && At(f, Pos(x, y, z)) != 0 :: (x, y)
  }

  /** The columns whose line is high in `w`. */
  function ShownColumns(w: Words): set<(int, int)> {
    set x, y | 0 <= x < Side && 0 <= y < Side && IsSet(w, CellSlot(x, y)) :: (x, y)
  }

  /** The layers whose strobe is high in `w`. */
  function ShownLayers(w: Words): set<int> {
    set k | 0 <= k < Side && IsSet(w, StrobeSlot(k))
  }

  /** Reading the words of layer `z` back gives layer `z` alone and its lit columns. */
  lemma ZrowReadsBack(f: Field, z: int)
    requires 0 <= z < Side
    ensures ShownLayers(Zrow(f, z)) == {z}
    ensures ShownColumns(Zrow(f, z)) == LitColumns(f, z)
  {
    ZrowShowsLayer(f, z);
    var w := Zrow(f, z);
    assert z in ShownLayers(w);
    assert ShownColumns(w) == LitColumns(f, z) by {
      forall c | c in ShownColumns(w) ensures c in LitColumns(f, z) {
      }
      forall c | c in LitColumns(f, z) ensures c in ShownColumns(w) {
      }
    }
  }

  /** A line is driven for two buffers alike when they agree on which voxels of the layer are lit. */
  lemma LevelSeesOnlyLit(f: Field, g: Field, z: int, l: Line)
    requires 0 <= z < Side
    requires LitColumns(f, z) == LitColumns(g, z)
    ensures Level(f, z, l) != 0 <==> Level(g, z, l) != 0
  {
    if l.Column? && 0 <= l.x < Side && 0 <= l.y < Side {
      assert (l.x, l.y) in LitColumns(f, z) <==> (l.x, l.y) in LitColumns(g, z);
    }
  }

  /** A port word depends on the layer only through which of its voxels are lit. */
  lemma PortWordSeesOnlyLit(f: Field, g: Field, z: int, p: Port)
    requires 0 <= z < Side
    requires LitColumns(f, z) == LitColumns(g, z)
    ensures PortWord(f, z, p) == PortWord(g, z, p)
  {
    LevelSeesOnlyLit(f, g, z, Wiring(Slot(p, 0)));
    LevelSeesOnlyLit(f, g, z, Wiring(Slot(p, 1)));
    LevelSeesOnlyLit(f, g, z, Wiring(Slot(p, 2)));
    LevelSeesOnlyLit(f, g, z, Wiring(Slot(p, 3)));
    LevelSeesOnlyLit(f, g, z, Wiring(Slot(p, 4)));
    LevelSeesOnlyLit(f, g, z, Wiring(Slot(p, 5)));
    LevelSeesOnlyLit(f, g, z, Wiring(Slot(p, 6)));
    LevelSeesOnlyLit(f, g, z, Wiring(Slot(p, 7)));
    BitfieldTruthOnly(
      Level(f, z, Wiring(Slot(p, 0))), Level(f, z, Wiring(Slot(p, 1))),
      Level(f, z, Wiring(Slot(p, 2))), Level(f, z, Wiring(Slot(p, 3))),
      Level(f, z, Wiring(Slot(p, 4))), Level(f, z, Wiring(Slot(p, 5))),
      Level(f, z, Wiring(Slot(p, 6))), Level(f, z, Wiring(Slot(p, 7))),
      Level(g, z, Wiring(Slot(p, 0))), Level(g, z, Wiring(Slot(p, 1))),
      Level(g, z, Wiring(Slot(p, 2))), Level(g, z, Wiring(Slot(p, 3))),
      Level(g, z, Wiring(Slot(p, 4))), Level(g, z, Wiring(Slot(p, 5))),
      Level(g, z, Wiring(Slot(p, 6))), Level(g, z, Wiring(Slot(p, 7))));
  }

  /**
   * The words for a layer depend on nothing but the layer and which of its
   * voxels are lit: two buffers give the same words exactly when they agree
   * on that.
   */
  lemma ZrowSeesOnlyLit(f: Field, g: Field, z: int)
    requires 0 <= z < Side
    ensures Zrow(f, z) == Zrow(g, z) <==> LitColumns(f, z) == LitColumns(g, z)
  {
    if Zrow(f, z) == Zrow(g, z) {
      ZrowReadsBack(f, z);
      ZrowReadsBack(g, z);
    }
    if LitColumns(f, z) == LitColumns(g, z) {
      PortWordSeesOnlyLit(f, g, z, A);
      PortWordSeesOnlyLit(f, g, z, B);
      PortWordSeesOnlyLit(f, g, z, C);
      PortWordSeesOnlyLit(f, g, z, D);
    }
  }

  /** The interlaced order in which one frame shows the layers. */
  const ScanOrder: seq<int> := [0, 2, 4, 1, 3]

  /** Frames shown between two animation steps. */
  const FramesPerTick := 10

  /** Where layer `z` comes in the scan order. */
  function ScanPosition(z: int): nat
    requires 0 <= z < Side
  {
    match z
    case 0 => 0
    case 2 => 1
    case 4 => 2
    case 1 => 3
    case _ => 4
  }

  /**
   * The scan order lists each layer exactly once: it is a permutation of
   * 0..4, and `ScanPosition` is its inverse.
   */
  lemma ScanOrderIsPermutation()
    ensures multiset(ScanOrder) == multiset{0, 1, 2, 3, 4}
    ensures forall z | 0 <= z < Side :: ScanPosition(z) < |ScanOrder| && ScanOrder[ScanPosition(z)] == z
    ensures forall i | 0 <= i < |ScanOrder| :: 0 <= ScanOrder[i] < Side && ScanPosition(ScanOrder[i]) == i
  {
  }

  /** The words emitted for one frame: every layer once, in scan order. */
  function Frame(f: Field): (ws: seq<Words>)
    ensures |ws| == Side
  {
    seq(|ScanOrder|, i requires 0 <= i < |ScanOrder| => Zrow(f, ScanOrder[i]))
  }

  /** The i-th words of a frame strobe layer `ScanOrder[i]` alone and light its lit columns. */
  lemma FrameFollowsScanOrder(f: Field)
    ensures |Frame(f)| == Side
    ensures forall i | 0 <= i < |Frame(f)| ::
      ShownLayers(Frame(f)[i]) == {ScanOrder[i]} && ShownColumns(Frame(f)[i]) == LitColumns(f, ScanOrder[i])
  {
    forall i | 0 <= i < |Frame(f)|
      ensures ShownLayers(Frame(f)[i]) == {ScanOrder[i]} && ShownColumns(Frame(f)[i]) == LitColumns(f, ScanOrder[i])
    {
      ZrowReadsBack(f, ScanOrder[i]);
    }
  }

  /** A frame strobes each layer in exactly one of its five words: the one at `ScanPosition(z)`. */
  lemma FrameStrobesEachLayerOnce(f: Field)
    ensures forall i, z | 0 <= i < |Frame(f)| && 0 <= z < Side ::
      z in ShownLayers(Frame(f)[i]) <==> i == ScanPosition(z)
  {
    FrameFollowsScanOrder(f);
    ScanOrderIsPermutation();
  }

  /** `n` copies of `xs`, one after another. */
  function Repeat<T>(xs: seq<T>, n: nat): seq<T> {
    if n == 0 then [] else xs + Repeat(xs, n - 1)
  }

  /** The k-th element of `n` copies of a five-element `xs` is element `k % 5` of `xs`. */
  lemma {:induction false} RepeatLayout<T>(xs: seq<T>, n: nat)
    requires |xs| == Side
    ensures |Repeat(xs, n)| == Side * n
    ensures forall k | 0 <= k < |Repeat(xs, n)| :: Repeat(xs, n)[k] == xs[k % Side]
  {
    if n > 0 {
      RepeatLayout(xs, n - 1);
      var ws := Repeat(xs, n);
      var rest := Repeat(xs, n - 1);
      forall k | 0 <= k < |ws|
        ensures ws[k] == xs[k % Side]
      {
        if k >= Side {
          assert ws[k] == rest[k - Side];
          assert (k - Side) % Side == k % Side;
        }
      }
    }
  }

  /**
   * The words emitted between two animation steps: the frame shown
   * `FramesPerTick` times over, so word k shows layer `ScanOrder[k % 5]`.
   */
  function Burst(f: Field): (ws: seq<Words>)
    ensures |ws| == Side * FramesPerTick
  {
    RepeatLayout(Frame(f), FramesPerTick);
    Repeat(Frame(f), FramesPerTick)
  }

  /** A burst emits fifty words, the k-th of them being the words for layer `ScanOrder[k % 5]`. */
  lemma BurstLayout(f: Field)
    ensures |Burst(f)| == Side * FramesPerTick
    ensures forall k | 0 <= k < |Burst(f)| :: Burst(f)[k] == Zrow(f, ScanOrder[k % Side])
  {
    RepeatLayout(Frame(f), FramesPerTick);
  }
}
