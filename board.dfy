/** The tic-tac-toe rules of the game server: the 3x3 board as a row-major
    sequence of nine cells, the eight winning lines and the evaluator that
    decides whether a board is won, drawn or still open. */
module TicTacToe {

  /** The two player symbols, 'X' and 'O'. */
  datatype Symbol = X | O

  /** The symbol that moves after `s`. */
  function Other(s: Symbol): (t: Symbol)
    ensures t != s
  {
    if s == X then O else X
  }

  /** A board cell: `null` in the source, or a player's symbol. */
  datatype Cell = Empty | Mark(sym: Symbol)

  /** What the evaluator reports: `null`, a winning symbol, or 'draw'.
      The same three values are what a room stores as its winner. */
  datatype Outcome = NoResult | Win(winner: Symbol) | Draw

  /** Three board positions that form a row, a column or a diagonal. */
  datatype Line = Line(a: nat, b: nat, c: nat)

  /** The eight lines, in the order the evaluator scans them. */
  const Lines: seq<Line> := [
    Line(0, 1, 2), Line(3, 4, 5), Line(6, 7, 8),
    Line(0, 3, 6), Line(1, 4, 7), Line(2, 5, 8),
    Line(0, 4, 8), Line(2, 4, 6)
  ]

  /** A fresh board: nine empty cells. */
  function EmptyBoard(): (b: seq<Cell>)
    ensures |b| == 9
    ensures forall i :: 0 <= i < |b| ==> b[i] == Empty
  {
    seq(9, _ => Empty)
  }

  /** Every line of `Lines` lies on a nine-cell board. */
  predicate OnBoard(l: Line)
  {
    l.a < 9 && l.b < 9 && l.c < 9
  }

  lemma LinesOnBoard()
    ensures forall j :: 0 <= j < |Lines| ==> OnBoard(Lines[j])
  {
  }

  lemma LineOnBoard(k: nat)
    requires k < |Lines|
    ensures OnBoard(Lines[k])
  {
    LinesOnBoard();
  }

  /** All three cells of line `l` hold symbol `s`. */
  predicate WonBy(board: seq<Cell>, l: Line, s: Symbol)
    requires |board| == 9 && OnBoard(l)
  {
    board[l.a] == Mark(s) && board[l.b] == Mark(s) && board[l.c] == Mark(s)
  }

  /** Line `l` is filled by one symbol, whichever it is. */
  predicate Completed(board: seq<Cell>, l: Line)
    requires |board| == 9 && OnBoard(l)
  {
    board[l.a] != Empty && board[l.a] == board[l.b] && board[l.a] == board[l.c]
  }

  /** Some line of the board is filled by `s`. */
  predicate HasLine(board: seq<Cell>, s: Symbol)
    requires |board| == 9
  {
    LinesOnBoard();
    exists j :: 0 <= j < |Lines| && WonBy(board, Lines[j], s)
  }

  /** No line of the board is filled by one symbol. */
  predicate NoLine(board: seq<Cell>)
    requires |board| == 9
  {
    LinesOnBoard();
    forall j :: 0 <= j < |Lines| ==> !Completed(board, Lines[j])
  }

  /** No cell of the board is empty. */
  predicate Full(board: seq<Cell>)
  {
    forall i :: 0 <= i < |board| ==> board[i] != Empty
  }

  /** The scan over `Lines[k..]` with its early return: the symbol of the
      first completed line, or `NoResult` when there is none. */
  function ScanLines(board: seq<Cell>, k: nat): (r: Outcome)
    requires |board| == 9 && k <= |Lines|
    ensures r != Draw
    ensures r.Win? ==>
      exists j :: k <= j < |Lines| && WonBy(board, Lines[j], r.winner)
        && forall j' :: k <= j' < j ==> !Completed(board, Lines[j'])
    ensures r == NoResult <==> forall j :: k <= j < |Lines| ==> !Completed(board, Lines[j])
    decreases |Lines| - k
  {
    if k == |Lines| then NoResult
    else
      var l := Lines[k];
      LineOnBoard(k);
      if Completed(board, l) then
        Win(board[l.a].sym)
      else
        ScanLines(board, k + 1)
  }

  /** The evaluator. A completed line wins even on a full board; only a
      full board without any completed line is a draw. */
  function CheckWinner(board: seq<Cell>): (r: Outcome)
    requires |board| == 9
    ensures r.Win? ==> HasLine(board, r.winner)
    ensures r.Win? <==> !NoLine(board)
    ensures r == Draw <==> NoLine(board) && Full(board)
    ensures r == NoResult <==> NoLine(board) && !Full(board)
  {
    var w := ScanLines(board, 0);
    if w.Win? then w
    else if Full(board) then Draw
    else NoResult
  }

  /** When a board without a completed line receives one more mark `s`, any
      line it then completes is a line of `s`: a move can only make its own
      mover win. */
  lemma MoveOnlyWinsForMover(board: seq<Cell>, i: nat, s: Symbol)
    requires |board| == 9 && i < 9 && NoLine(board)
    ensures CheckWinner(board[i := Mark(s)]).Win? ==> CheckWinner(board[i := Mark(s)]).winner == s
  {
    var after := board[i := Mark(s)];
    var w := CheckWinner(after);
    if w.Win? {
      LinesOnBoard();
      assert HasLine(after, w.winner);
      var j :| 0 <= j < |Lines| && WonBy(after, Lines[j], w.winner);
      var l := Lines[j];
      // the line was not completed before the move, so it runs through cell i
      assert !Completed(board, l);
    }
  }

  /** The number of cells marked with `s`. */
  function Count(board: seq<Cell>, s: Symbol): (n: nat)
    ensures n <= |board|
  {
    if board == [] then 0
    else (if board[0] == Mark(s) then 1 else 0) + Count(board[1..], s)
  }

  lemma {:induction false} CountEmpty(board: seq<Cell>, s: Symbol)
    requires forall i :: 0 <= i < |board| ==> board[i] == Empty
    ensures Count(board, s) == 0
  {
    if board != [] {
      CountEmpty(board[1..], s);
    }
  }

  /** Marking an empty cell with `s` adds one `s` and leaves the count of
      the other symbol alone. */
  lemma {:induction false} CountAfterMark(board: seq<Cell>, i: nat, s: Symbol)
    requires i < |board| && board[i] == Empty
    ensures Count(board[i := Mark(s)], s) == Count(board, s) + 1
    ensures Count(board[i := Mark(s)], Other(s)) == Count(board, Other(s))
  {
    var after := board[i := Mark(s)];
    if i > 0 {
      assert after[1..] == board[1..][i - 1 := Mark(s)];
      CountAfterMark(board[1..], i - 1, s);
    } else {
      assert after[1..] == board[1..];
    }
  }

  /** The turn rule read off the board: X moves when both symbols have
      been played equally often, O when X is one ahead. */
  predicate TurnMatches(board: seq<Cell>, turn: Symbol)
  {
    Count(board, X) == Count(board, O) + (if turn == X then 0 else 1)
  }

  /** A move by the symbol whose turn it is keeps the turn rule once the
      turn passes to the other symbol. */
  lemma MoveKeepsTurnRule(board: seq<Cell>, i: nat, turn: Symbol)
    requires i < |board| && board[i] == Empty && TurnMatches(board, turn)
    ensures TurnMatches(board[i := Mark(turn)], Other(turn))
  {
    CountAfterMark(board, i, turn);
  }

  /** The empty board is open, and X is to move on it. */
  lemma EmptyBoardOpen()
    ensures CheckWinner(EmptyBoard()) == NoResult
    ensures TurnMatches(EmptyBoard(), X)
  {
    var b := EmptyBoard();
    CountEmpty(b, X);
    CountEmpty(b, O);
    LinesOnBoard();
    assert NoLine(b);
    assert !Full(b) by { assert b[0] == Empty; }
  }

  /** X on the 0-4-8 diagonal wins, whatever else the board holds: every
      line passes through cell 0, 4 or 8, so O cannot complete one. */
  lemma DiagonalWin(board: seq<Cell>)
    requires |board| == 9
    requires board[0] == Mark(X) && board[4] == Mark(X) && board[8] == Mark(X)
    ensures CheckWinner(board) == Win(X)
  {
    LinesOnBoard();
    assert WonBy(board, Lines[6], X);
    var r := ScanLines(board, 0);
    assert r.Win?;
  }

  /** Two boards worked through: XOX/XOO/OXX, a full board without a line,
      and XXX/OOX/XOO, a full board with a line, which is a win and not a
      draw. */
  lemma FullBoardDraw()
    ensures CheckWinner([Mark(X), Mark(O), Mark(X), Mark(X), Mark(O), Mark(O), Mark(O), Mark(X), Mark(X)]) == Draw
  {
    var b := [Mark(X), Mark(O), Mark(X), Mark(X), Mark(O), Mark(O), Mark(O), Mark(X), Mark(X)];
    // no line is completed: unfold the scan one line at a time
    assert ScanLines(b, 7) == NoResult;
    assert ScanLines(b, 5) == NoResult;
    assert ScanLines(b, 3) == NoResult;
    assert ScanLines(b, 1) == NoResult;
  }

  lemma FullBoardWithLine()
    ensures CheckWinner([Mark(X), Mark(X), Mark(X), Mark(O), Mark(O), Mark(X), Mark(X), Mark(O), Mark(O)]) == Win(X)
  {
  }
}
