/**
  The brick field: its construction at every level reset and the search for
  the brick the ball hits.
 */
module Bricks {
  import opened Wrappers
  import opened Geometry
  import opened Seqs

  const BRICK_WIDTH: int := 60
  const BRICK_HEIGHT: int := 20
  /** Horizontal and vertical gaps between neighbouring bricks. */
  const BRICK_GAP_X: int := 10
  const BRICK_GAP_Y: int := 5
  const FIELD_LEFT: int := 35
  const FIELD_TOP: int := 50
  const ROWS: nat := 6
  const COLS: nat := 8

  /** An RGB display colour. */
  datatype Color = Color(r: int, g: int, b: int)

  const BLUE: Color := Color(0, 0, 255)
  /** Row colours, cycled every three rows. */
  const PALETTE: seq<Color> := [BLUE, Color(0, 100, 200), Color(50, 150, 255)]

  /** A brick is its rectangle tagged with a colour; the pair is what the list stores. */
  datatype Brick = Brick(rect: Rect, color: Color)

  /** The brick the construction loop places at row i, column j. */
  function BrickAt(i: nat, j: nat): Brick {
    Brick(Rect(j * (BRICK_WIDTH + BRICK_GAP_X) + FIELD_LEFT,
               i * (BRICK_HEIGHT + BRICK_GAP_Y) + FIELD_TOP,
               BRICK_WIDTH, BRICK_HEIGHT),
          PALETTE[i % 3])
  }

  /** The inner loop: the first n bricks of row i, left to right. */
  function Row(i: nat, n: nat): (r: seq<Brick>)
    ensures |r| == n
    ensures forall j :: 0 <= j < n ==> r[j] == BrickAt(i, j)
  {
    if n == 0 then [] else Row(i, n - 1) + [BrickAt(i, n - 1)]
  }

  /** The outer loop: the first m rows, top to bottom, each row appended whole. */
  function Rows(m: nat): (r: seq<Brick>)
    ensures |r| == COLS * m
    ensures forall k :: 0 <= k < |r| ==> r[k] == BrickAt(k / COLS, k % COLS)
  {
    if m == 0 then []
    else
      var prev := Rows(m - 1);
      var r := prev + Row(m - 1, COLS);
      assert forall k :: COLS * (m - 1) <= k < |r| ==> k / COLS == m - 1 && k % COLS == k - COLS * (m - 1);
      r
  }

  /**
    The full field a level reset builds, in closed form: brick k sits at row
    k / 8, column k % 8.
   */
  function Field(): seq<Brick> {
    seq(ROWS * COLS, k requires 0 <= k => BrickAt(k / COLS, k % COLS))
  }

  /** The nested construction loops build exactly the closed-form field. */
  lemma FieldIsLoops()
    ensures Rows(ROWS) == Field()
  {
  }

  /**
    The field has 48 bricks, 60 by 20 each, brick k at column k % 8 and row
    k / 8, entirely on screen, and no two of them overlap.
   */
  lemma FieldLayout()
    ensures |Field()| == ROWS * COLS == 48
    ensures forall k :: 0 <= k < |Field()| ==>
      Field()[k].rect == Rect(70 * (k % 8) + 35, 25 * (k / 8) + 50, 60, 20)
    ensures forall k :: 0 <= k < |Field()| ==> OnScreen(Field()[k].rect)
    ensures forall k, l :: 0 <= k < l < |Field()| ==> !Overlaps(Field()[k].rect, Field()[l].rect)
  {
    var f := Field();
    forall k, l | 0 <= k < l < |f| ensures !Overlaps(f[k].rect, f[l].rect) {
      if k / 8 == l / 8 {
        assert k % 8 != l % 8;
      }
    }
  }

  /** The index in the reset field of a brick, read back from its position. */
  function Slot(b: Brick): int {
    COLS * ((b.rect.y - FIELD_TOP) / (BRICK_HEIGHT + BRICK_GAP_Y))
      + (b.rect.x - FIELD_LEFT) / (BRICK_WIDTH + BRICK_GAP_X)
  }

  lemma SlotOfField(k: nat)
    requires k < |Field()|
    ensures Slot(Field()[k]) == k
  {
    assert Field()[k] == BrickAt(k / COLS, k % COLS);
  }

  /** The brick is the reset field's brick at its slot. */
  predicate FromField(b: Brick) {
    0 <= Slot(b) < |Field()| && Field()[Slot(b)] == b
  }

  /**
    What the live brick list always is: bricks of the reset field, in field
    order, none twice.
   */
  predicate Remaining(bricks: seq<Brick>) {
    && (forall k :: 0 <= k < |bricks| ==> FromField(bricks[k]))
    && (forall k, l :: 0 <= k < l < |bricks| ==> Slot(bricks[k]) < Slot(bricks[l]))
  }

  lemma {:induction false} FieldRemaining()
    ensures Remaining(Field())
  {
    forall k | 0 <= k < |Field()| ensures Slot(Field()[k]) == k {
      SlotOfField(k);
    }
  }

  /** Deleting one brick keeps the list a remaining list. */
  lemma {:induction false} RemainingDelete(bricks: seq<Brick>, i: nat)
    requires Remaining(bricks) && i < |bricks|
    ensures Remaining(bricks[..i] + bricks[i + 1..])
  {
    var r := bricks[..i] + bricks[i + 1..];
    assert forall k :: 0 <= k < |r| ==> r[k] == bricks[if k < i then k else k + 1];
  }

  lemma {:induction false} SlotsClimb(bricks: seq<Brick>, k: nat)
    requires Remaining(bricks) && k < |bricks|
    ensures Slot(bricks[k]) >= k
  {
    if k > 0 {
      SlotsClimb(bricks, k - 1);
    }
  }

  /**
    A remaining list has at most 48 bricks, all on screen, no two of them
    overlapping.
   */
  lemma {:induction false} RemainingLayout(bricks: seq<Brick>)
    requires Remaining(bricks)
    ensures |bricks| <= 48
    ensures forall k :: 0 <= k < |bricks| ==> OnScreen(bricks[k].rect)
    ensures forall k, l :: 0 <= k < l < |bricks| ==> !Overlaps(bricks[k].rect, bricks[l].rect)
  {
    FieldLayout();
    if |bricks| > 0 {
      SlotsClimb(bricks, |bricks| - 1);
    }
    forall k, l | 0 <= k < l < |bricks| ensures !Overlaps(bricks[k].rect, bricks[l].rect) {
      assert bricks[k] == Field()[Slot(bricks[k])] && bricks[l] == Field()[Slot(bricks[l])];
    }
  }

  /**
    The scan over the brick list: the index of the first brick, in list order,
    that the ball overlaps, or None when it overlaps none.
   */
  function FirstHit(ball: Rect, bricks: seq<Brick>): (r: Option<nat>)
    ensures r.Some? ==> r.value < |bricks| && Overlaps(ball, bricks[r.value].rect)
    ensures r.Some? ==> forall k :: 0 <= k < r.value ==> !Overlaps(ball, bricks[k].rect)
    ensures r.None? <==> forall k :: 0 <= k < |bricks| ==> !Overlaps(ball, bricks[k].rect)
  {
    if |bricks| == 0 then None
    else if Overlaps(ball, bricks[0].rect) then Some(0)
    else
      match FirstHit(ball, bricks[1..])
      case None => None
      case Some(k) => Some(k + 1)
  }

  /**
    Removing the first-hit brick by value, as the game does, deletes exactly
    its index: an equal brick earlier in the list would have been hit first.
   */
  lemma RemoveHit(ball: Rect, bricks: seq<Brick>)
    requires FirstHit(ball, bricks).Some?
    ensures var i := FirstHit(ball, bricks).value;
            RemoveFirst(bricks, bricks[i]) == bricks[..i] + bricks[i + 1..]
  {
    var i := FirstHit(ball, bricks).value;
    var hit := bricks[i];
    assert hit !in bricks[..i] by {
      forall k | 0 <= k < i ensures bricks[..i][k] != hit {
        assert !Overlaps(ball, bricks[k].rect);
      }
    }
    RemoveFirstAt(bricks, hit, i);
  }
}
