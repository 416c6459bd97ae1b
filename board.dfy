/** The `board` module: nine slots and the list of positions still free. */
module GameBoard {
  import opened Wrappers
  import opened Seqs
  import opened GameEvents

  const SIZE: nat := 9

  /** `board[position]` guarded by `position >= size`: a hole, a negative
      index and an index past the board all read as `undefined`. */
  function SymbolAt(cells: seq<Option<string>>, position: int): Option<string> {
    if 0 <= position < |cells| && position < SIZE then cells[position] else None
  }

  /** The positions of the empty slots of `cells`, in increasing order. */
  function EmptyPositions(cells: seq<Option<string>>): seq<int> {
    if cells == [] then []
    else EmptyPositions(cells[..|cells| - 1])
         + (if cells[|cells| - 1] == None then [|cells| - 1] else [])
  }

  lemma {:induction false} EmptyPositionsSpec(cells: seq<Option<string>>)
    ensures StrictlyIncreasing(EmptyPositions(cells))
    ensures forall p :: p in EmptyPositions(cells) <==> 0 <= p < |cells| && cells[p] == None
  {
    if cells != [] {
      var n := |cells| - 1;
      var init := cells[..n];
      EmptyPositionsSpec(init);
      forall p ensures p in EmptyPositions(init) <==> 0 <= p < n && cells[p] == None {
        if 0 <= p < n {
          assert init[p] == cells[p];
        }
      }
      var front := EmptyPositions(init);
      var r := EmptyPositions(cells);
      assert r == front + (if cells[n] == None then [n] else []);
      forall i, j | 0 <= i < j < |r| ensures r[i] < r[j] {
        if j == |front| {
          assert r[i] == front[i] && front[i] in front;
        }
      }
    }
  }

  class Board {
    /** The slots; `None` is a slot never written since the last reset. */
    var cells: array<Option<string>>
    /** The JavaScript length of the board array: one past the highest
        written slot, which is what a copy `[...board]` holds. */
    var length: nat
    var availablePositions: seq<int>

    /** The list of free positions and the empty slots describe the same set;
        the list stays strictly increasing within 0..8, and no slot at or
        past `length` has been written. */
    ghost predicate Valid()
      reads this, cells
    {
      && cells.Length == SIZE
      && length <= SIZE
      && (length > 0 ==> cells[length - 1] != None)
      && (forall q :: length <= q < SIZE ==> cells[q] == None)
      && StrictlyIncreasing(availablePositions)
      && (forall p :: p in availablePositions ==> 0 <= p < SIZE)
      && (forall p :: 0 <= p < SIZE ==> (p in availablePositions <==> cells[p] == None))
    }

    constructor ()
      ensures Valid() && fresh(cells)
      ensures GetEmptyCellsCount() == SIZE
      ensures forall p :: GetSymbolAt(p) == None
    {
      cells := new Option<string>[SIZE](_ => None);
      length := 0;
      availablePositions := [];
      new;
      ResetBoard();
    }

    /** The list of free positions is exactly the empty slots, in order. */
    lemma AvailableAreEmptyPositions()
      requires Valid()
      ensures availablePositions == EmptyPositions(cells[..])
    {
      EmptyPositionsSpec(cells[..]);
      IncreasingUnique(availablePositions, EmptyPositions(cells[..]));
    }

    /** `getEmptyCellsCount`: the number of empty slots. */
    function GetEmptyCellsCount(): (count: nat)
      reads this, cells
      requires Valid()
      ensures count == |EmptyPositions(cells[..])| && count <= SIZE
    {
      AvailableAreEmptyPositions();
      assert |availablePositions| <= SIZE by {
        EmptyPositionsSpec(cells[..]);
        SubsetOfRangeBounded(availablePositions, SIZE);
      }
      |availablePositions|
    }

    /** `getSymbolAt`: the symbol in a slot; absent for a free position and
        for any position outside 0..8. */
    function GetSymbolAt(position: int): (r: Option<string>)
      reads this, cells
      requires Valid()
      ensures !(0 <= position < SIZE) ==> r == None
      ensures 0 <= position < SIZE ==> (r == None <==> position in availablePositions)
      ensures r != None ==> r == cells[position]
    {
      SymbolAt(cells[..], position)
    }

    /** `resetBoard`: a fresh empty board and every position free again. */
    method ResetBoard()
      modifies this
      ensures Valid() && fresh(cells)
      ensures availablePositions == seq(SIZE, p => p)
      ensures GetEmptyCellsCount() == SIZE
      ensures forall p :: GetSymbolAt(p) == None
    {
      cells := new Option<string>[SIZE](_ => None);
      length := 0;
      var positions := [];
      var i := 0;
      while i < SIZE
        invariant 0 <= i <= SIZE
        invariant positions == seq(i, p => p)
      {
        positions := positions + [i];
        i := i + 1;
      }
      availablePositions := positions;
      forall p | 0 <= p < SIZE ensures p in availablePositions && cells[p] == None {
        assert availablePositions[p] == p;
      }
    }

    /** `updateBoardPosition`: writes `symbol` at `position` when, and only
        when, the position is still free; on success splices it out of the
        free list and publishes a copy of the board. */
    method UpdateBoardPosition(position: int, symbol: string) returns (ok: bool, published: seq<Ev>)
      requires Valid()
      modifies this, cells
      ensures Valid() && cells == old(cells)
      ensures ok <==> position in old(availablePositions)
      ensures ok ==> 0 <= position < SIZE && old(cells[position]) == None
      ensures ok ==> cells[..] == old(cells[..])[position := Some(symbol)]
      ensures ok ==> position !in availablePositions
      ensures ok ==> multiset(availablePositions) == multiset(old(availablePositions)) - multiset{position}
      ensures ok ==> GetEmptyCellsCount() == old(GetEmptyCellsCount()) - 1
      ensures ok ==> length == if old(length) <= position then position + 1 else old(length)
      ensures ok ==> published == [UpdateBoard(cells[..length])]
      ensures !ok ==> cells[..] == old(cells[..]) && length == old(length)
      ensures !ok ==> availablePositions == old(availablePositions) && published == []
    {
      var index := FindIndex(availablePositions, position);
      if index == -1 {
        return false, [];
      }
      ghost var before := availablePositions;
      cells[position] := Some(symbol);
      availablePositions := RemoveAt(availablePositions, index);
      RemoveAtIncreasing(before, index);
      if length <= position {
        length := position + 1;
      }
      published := [UpdateBoard(cells[..length])];
      ok := true;
    }
  }

  lemma SubsetOfRangeBounded(s: seq<int>, n: nat)
    requires StrictlyIncreasing(s)
    requires forall p :: p in s ==> 0 <= p < n
    ensures |s| <= n
  {
    // s[k] >= k for every k, so the last element bounds the length
    if s != [] {
      var k := |s| - 1;
      LowerBound(s, k);
      assert s[k] in s;
    }
  }

  lemma {:induction false} LowerBound(s: seq<int>, k: nat)
    requires StrictlyIncreasing(s) && k < |s|
    requires forall p :: p in s ==> 0 <= p
    ensures s[k] >= k
  {
    if k == 0 {
      assert s[0] in s;
    } else {
      LowerBound(s, k - 1);
    }
  }
}
