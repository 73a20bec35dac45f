/**
 * The older `puzzles` namespace: the same two-step pipeline as the v1
 * service, with English prompt turns, the label IRRELEVANT for code 2 and
 * the model "gpt-4". Its catalogue lookup is the same expression as the v1
 * one and is modelled by `PuzzleService.GetPuzzle`.
 */
module LegacyPuzzles {
  import opened Common
  import opened ChatOracle
  import PuzzleService

  type Puzzle = PuzzleService.Puzzle

  datatype QueryResult = TRUE | FALSE | IRRELEVANT | GAMEOVER | ERROR

  function Code(r: QueryResult): (c: int)
    ensures c in PuzzleService.ResultCodes
  {
    match r
    case TRUE => 0
    case FALSE => 1
    case IRRELEVANT => 2
    case GAMEOVER => 4
    case ERROR => 500
  }

  /** The legacy enum and the v1 enum agree code for code; only the name of
      code 2 differs. */
  lemma SameCodesAsService(r: QueryResult)
    ensures PuzzleService.FromCode(Code(r)) == Some(match r
                                                    case TRUE => PuzzleService.TRUE
                                                    case FALSE => PuzzleService.FALSE
                                                    case IRRELEVANT => PuzzleService.UNRELATED
                                                    case GAMEOVER => PuzzleService.GAMEOVER
                                                    case ERROR => PuzzleService.ERROR)
  {
  }

  const ChatModel: string := "gpt-4"

  /** The user turn of the primary query, with ASCII colons. */
  function PrimaryTurn(story: string, guess: string): (s: string)
    ensures |s| == |story| + |guess| + 23
    ensures s[11..11 + |story|] == story && s[|s| - |guess|..] == guess
    ensures s[..11] == "Narrative: " && s[11 + |story|..|s| - |guess|] == "\nStatement: "
  {
    "Narrative: " + story + "\nStatement: " + guess
  }

  /** The user turn of the termination query, with full-width colons. */
  function TerminationTurn(story: string, guess: string): (s: string)
    ensures |s| == |story| + |guess| + 21
    ensures s[10..10 + |story|] == story && s[|s| - |guess|..] == guess
    ensures s[..10] == "Narrative：" && s[10 + |story|..|s| - |guess|] == "\nStatement："
  {
    "Narrative：" + story + "\nStatement：" + guess
  }

  /** Unlike the v1 service, the two queries never carry the same user turn. */
  lemma TurnsDiffer(story: string, guess: string)
    ensures PrimaryTurn(story, guess) != TerminationTurn(story, guess)
  {
    assert PrimaryTurn(story, guess)[9] == ':';
    assert TerminationTurn(story, guess)[9] == '：';
  }

  /** The primary query on the legacy model, with deterministic sampling. */
  function PrimaryRequest(puzzle: Puzzle, guess: string): (r: Request)
    ensures r.model == ChatModel && r.preamble == Starter
    ensures |r.userTurn| == |puzzle.story| + |guess| + 23
    ensures r.userTurn[11..11 + |puzzle.story|] == puzzle.story && r.userTurn[|r.userTurn| - |guess|..] == guess
    ensures r.temperature == 0 && r.presencePenalty == 0 && r.frequencyPenalty == 0
  {
    Request(ChatModel, Starter, PrimaryTurn(puzzle.story, guess), 0, 0, 0)
  }

  /** The termination query: another preamble and another user turn than
      the primary query, on the same model and sampling. */
  function TerminationRequest(puzzle: Puzzle, guess: string): (r: Request)
    ensures r.model == ChatModel && r.preamble == TerminationStarter
    ensures |r.userTurn| == |puzzle.story| + |guess| + 21
    ensures r.userTurn[10..10 + |puzzle.story|] == puzzle.story && r.userTurn[|r.userTurn| - |guess|..] == guess
    ensures r.userTurn != PrimaryRequest(puzzle, guess).userTurn
    ensures r.temperature == 0 && r.presencePenalty == 0 && r.frequencyPenalty == 0
  {
    TurnsDiffer(puzzle.story, guess);
    Request(ChatModel, TerminationStarter, TerminationTurn(puzzle.story, guess), 0, 0, 0)
  }

  /** The legacy exact-match table: "UNRELATED" is not in it and so fails
      closed to ERROR like any other unrecognised answer. */
  function Classify(content: Option<string>): (r: QueryResult)
    ensures r == TRUE <==> content == Some("TRUE")
    ensures r == FALSE <==> content == Some("FALSE")
    ensures r == IRRELEVANT <==> content == Some("IRRELEVANT")
    ensures r == ERROR <==> content !in {Some("TRUE"), Some("FALSE"), Some("IRRELEVANT")}
    ensures content == Some("UNRELATED") ==> r == ERROR
  {
    match content
    case Some("TRUE") => TRUE
    case Some("FALSE") => FALSE
    case Some("IRRELEVANT") => IRRELEVANT
    case _ => ERROR
  }

  /**
   * The legacy `makeGuess`: the same gating as the v1 service, over the
   * legacy labels and prompt turns. `sent` records the requests in order.
   */
  method MakeGuess(puzzle: Puzzle, guess: string, ask: Oracle)
    returns (outcome: Outcome<QueryResult>, ghost sent: seq<Request>)
    ensures 1 <= |sent| <= 2 && sent[0] == PrimaryRequest(puzzle, guess)
    ensures |sent| == 2 <==> PrimaryContent(ask(sent[0])) == Returned(Some("TRUE"))
    ensures |sent| == 2 ==> sent[1] == TerminationRequest(puzzle, guess)
    // GAMEOVER iff the primary answer was exactly "TRUE" and the termination answer contains "TRUE".
    ensures outcome == Returned(GAMEOVER) <==>
            && PrimaryContent(ask(PrimaryRequest(puzzle, guess))) == Returned(Some("TRUE"))
            && ask(TerminationRequest(puzzle, guess)).Completion?
            && TerminationAffirms(ask(TerminationRequest(puzzle, guess)).choices)
    // TRUE iff the primary answer was exactly "TRUE" and the termination answer does not affirm.
    ensures outcome == Returned(TRUE) <==>
            && PrimaryContent(ask(PrimaryRequest(puzzle, guess))) == Returned(Some("TRUE"))
            && ask(TerminationRequest(puzzle, guess)).Completion?
            && !TerminationAffirms(ask(TerminationRequest(puzzle, guess)).choices)
    // Any other label passes through unchanged.
    ensures forall c :: PrimaryContent(ask(PrimaryRequest(puzzle, guess))) == Returned(c) && Classify(c) != TRUE
                        ==> outcome == Returned(Classify(c))
    // A failed call, or a primary completion without choices, rejects.
    ensures outcome.Threw? <==>
            || PrimaryContent(ask(PrimaryRequest(puzzle, guess))).Threw?
            || (&& PrimaryContent(ask(PrimaryRequest(puzzle, guess))) == Returned(Some("TRUE"))
                && ask(TerminationRequest(puzzle, guess)).Failed?)
  {
    var primary := PrimaryRequest(puzzle, guess);
    var resp := ask(primary);
    sent := [primary];
    if resp.Failed? || |resp.choices| == 0 {
      return Threw, sent;
    }
    var result := ERROR;
    match resp.choices[0].content {
      case Some("TRUE") => result := TRUE;
      case Some("FALSE") => result := FALSE;
      case Some("IRRELEVANT") => result := IRRELEVANT;
      case _ => result := ERROR;
    }
    if result == TRUE {
      var termination := TerminationRequest(puzzle, guess);
      var terminationResp := ask(termination);
      sent := sent + [termination];
      if terminationResp.Failed? {
        return Threw, sent;
      }
      if TerminationAffirms(terminationResp.choices) {
        return Returned(GAMEOVER), sent;
      }
    }
    return Returned(result), sent;
  }
}
