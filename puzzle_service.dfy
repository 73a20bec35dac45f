/**
 * The v1 guess evaluation service: catalogue lookup, and the two-step
 * classification of a statement against a puzzle's story.
 */
module PuzzleService {
  import opened Common
  import opened ChatOracle

  /** A catalogue entry: the hidden story and the short lead shown to players. */
  datatype Puzzle = Puzzle(id: int, story: string, lead: string)

  /** The closed set of evaluation results. */
  datatype QueryResult = TRUE | FALSE | UNRELATED | GAMEOVER | ERROR

  const ResultCodes: set<int> := {0, 1, 2, 4, 500}

  /** The numeric value each result carries on the wire. */
  function Code(r: QueryResult): (c: int)
    ensures c in ResultCodes
  {
    match r
    case TRUE => 0
    case FALSE => 1
    case UNRELATED => 2
    case GAMEOVER => 4
    case ERROR => 500
  }

  /** Reads a wire code back; codes outside the enum have no result. */
  function FromCode(c: int): (r: Option<QueryResult>)
    ensures r.Some? <==> c in ResultCodes
    ensures r.Some? ==> Code(r.value) == c
  {
    if c == 0 then Some(TRUE)
    else if c == 1 then Some(FALSE)
    else if c == 2 then Some(UNRELATED)
    else if c == 4 then Some(GAMEOVER)
    else if c == 500 then Some(ERROR)
    else None
  }

  /** Every result survives the trip through its code; hence the codes are
      pairwise distinct. */
  lemma CodesDistinct(a: QueryResult, b: QueryResult)
    ensures FromCode(Code(a)) == Some(a)
    ensures a != b ==> Code(a) != Code(b)
  {
  }

  /** `catalogue.find(p => p.id === puzzleId) || null`. */
  function GetPuzzle(catalogue: seq<Puzzle>, puzzleId: int): (r: Option<Puzzle>)
    ensures r.None? <==> forall k :: 0 <= k < |catalogue| ==> catalogue[k].id != puzzleId
    ensures r.Some? ==> exists k :: 0 <= k < |catalogue| && catalogue[k] == r.value
                                    && r.value.id == puzzleId
                                    && forall j :: 0 <= j < k ==> catalogue[j].id != puzzleId
  {
    if |catalogue| == 0 then None
    else if catalogue[0].id == puzzleId then Some(catalogue[0])
    else
      var r := GetPuzzle(catalogue[1..], puzzleId);
      assert r.Some? ==> exists k :: 0 <= k < |catalogue[1..]| && catalogue[1..][k] == r.value
                                    && forall j :: 0 <= j < k ==> catalogue[1..][j].id != puzzleId;
      assert forall k :: 0 <= k < |catalogue[1..]| ==> catalogue[1..][k] == catalogue[k + 1];
      r
  }

  /** The whole catalogue, in catalogue order: the lookup finds exactly the
      ids it lists. */
  function GetAllPuzzles(catalogue: seq<Puzzle>): (r: seq<Puzzle>)
    ensures forall id :: GetPuzzle(catalogue, id).Some? <==> exists k :: 0 <= k < |r| && r[k].id == id
  {
    catalogue
  }

  /** Every puzzle the lookup finds is one the listing shows. */
  lemma {:induction false} LookupWithinListing(catalogue: seq<Puzzle>, puzzleId: int)
    ensures GetPuzzle(catalogue, puzzleId).Some? ==> GetPuzzle(catalogue, puzzleId).value in GetAllPuzzles(catalogue)
    ensures (exists k :: 0 <= k < |GetAllPuzzles(catalogue)| && GetAllPuzzles(catalogue)[k].id == puzzleId)
            ==> GetPuzzle(catalogue, puzzleId).Some?
  {
  }

  const ChatModel: string := "gpt-4-0613"

  /** The single user turn of both queries: the story, then the statement. */
  function UserTurn(story: string, guess: string): (s: string)
    ensures |s| == |story| + |guess| + 7
    ensures s[3..3 + |story|] == story && s[|s| - |guess|..] == guess
    ensures s[..3] == "故事：" && s[3 + |story|..|s| - |guess|] == "\n陈述："
  {
    "故事：" + story + "\n陈述：" + guess
  }

  /** The same story and turn layout always yield the same statement back. */
  lemma UserTurnDeterminesGuess(story: string, g1: string, g2: string)
    requires UserTurn(story, g1) == UserTurn(story, g2)
    ensures g1 == g2
  {
    var t1, t2 := UserTurn(story, g1), UserTurn(story, g2);
    assert |g1| == |g2|;
    assert g1 == t1[|t1| - |g1|..] == t2[|t2| - |g2|..] == g2;
  }

  /** The primary query: the classification preamble and the user turn, on
      the pinned model with deterministic sampling. */
  function PrimaryRequest(puzzle: Puzzle, guess: string): (r: Request)
    ensures r.model == ChatModel && r.preamble == Starter
    ensures r.temperature == 0 && r.presencePenalty == 0 && r.frequencyPenalty == 0
    ensures |r.userTurn| == |puzzle.story| + |guess| + 7
    ensures r.userTurn[3..3 + |puzzle.story|] == puzzle.story && r.userTurn[|r.userTurn| - |guess|..] == guess
  {
    Request(ChatModel, Starter, UserTurn(puzzle.story, guess), 0, 0, 0)
  }

  /** The termination query: it differs from the primary query in its
      preamble only. */
  function TerminationRequest(puzzle: Puzzle, guess: string): (r: Request)
    ensures r == PrimaryRequest(puzzle, guess).(preamble := TerminationStarter)
    ensures r != PrimaryRequest(puzzle, guess)
  {
    Request(ChatModel, TerminationStarter, UserTurn(puzzle.story, guess), 0, 0, 0)
  }

  /** The exact-match table for the primary answer; anything else, including
      a missing content, fails closed to ERROR. */
  function Classify(content: Option<string>): (r: QueryResult)
    ensures r == TRUE <==> content == Some("TRUE")
    ensures r == FALSE <==> content == Some("FALSE")
    ensures r == UNRELATED <==> content == Some("UNRELATED")
    ensures r == ERROR <==> content !in {Some("TRUE"), Some("FALSE"), Some("UNRELATED")}
  {
    match content
    case Some("TRUE") => TRUE
    case Some("FALSE") => FALSE
    case Some("UNRELATED") => UNRELATED
    case _ => ERROR
  }

  /**
   * Evaluates `guess` against `puzzle`. `ask` answers each chat request;
   * `sent` records the requests in the order they were issued. A rejected
   * call propagates as `Threw`, since nothing here catches it.
   */
  method MakeGuess(puzzle: Puzzle, guess: string, ask: Oracle)
    returns (outcome: Outcome<QueryResult>, ghost sent: seq<Request>)
    // The primary query is always issued, and first; at most one more follows.
    ensures 1 <= |sent| <= 2 && sent[0] == PrimaryRequest(puzzle, guess)
    // The termination query is issued iff the primary answer read back as exactly "TRUE".
    ensures |sent| == 2 <==> PrimaryContent(ask(sent[0])) == Returned(Some("TRUE"))
    ensures |sent| == 2 ==> sent[1] == TerminationRequest(puzzle, guess)
                            && sent[1].userTurn == sent[0].userTurn
    // GAMEOVER iff the primary answer was exactly "TRUE" and the termination answer contains "TRUE".
    ensures outcome == Returned(GAMEOVER) <==>
            && PrimaryContent(ask(PrimaryRequest(puzzle, guess))) == Returned(Some("TRUE"))
            && ask(TerminationRequest(puzzle, guess)).Completion?
            && TerminationAffirms(ask(TerminationRequest(puzzle, guess)).choices)
    // TRUE iff the primary answer was exactly "TRUE" and the termination answer does not affirm.
    ensures outcome == Returned(TRUE) <==>
            && PrimaryContent(ask(PrimaryRequest(puzzle, guess))) == Returned(Some("TRUE"))
            && ask(TerminationRequest(puzzle, guess)).Completion?
            && !TerminationAffirms(ask(TerminationRequest(puzzle, guess)).choices)
    // Any other label passes through unchanged.
    ensures forall c :: PrimaryContent(ask(PrimaryRequest(puzzle, guess))) == Returned(c) && Classify(c) != TRUE
                        ==> outcome == Returned(Classify(c))
    // A failed call, or a primary completion without choices, rejects.
    ensures outcome.Threw? <==>
            || PrimaryContent(ask(PrimaryRequest(puzzle, guess))).Threw?
            || (&& PrimaryContent(ask(PrimaryRequest(puzzle, guess))) == Returned(Some("TRUE"))
                && ask(TerminationRequest(puzzle, guess)).Failed?)
  {
    var primary := PrimaryRequest(puzzle, guess);
    var resp := ask(primary);
    sent := [primary];
    if resp.Failed? || |resp.choices| == 0 {
      return Threw, sent;
    }
    var result := ERROR;
    match resp.choices[0].content {
      case Some("TRUE") => result := TRUE;
      case Some("FALSE") => result := FALSE;
      case Some("UNRELATED") => result := UNRELATED;
      case _ => result := ERROR;
    }
    if result == TRUE {
      var termination := TerminationRequest(puzzle, guess);
      var terminationResp := ask(termination);
      sent := sent + [termination];
      if terminationResp.Failed? {
        return Threw, sent;
      }
      if TerminationAffirms(terminationResp.choices) {
        return Returned(GAMEOVER), sent;
      }
    }
    return Returned(result), sent;
  }
}
