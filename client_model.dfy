/**
 * The client's view of results and its per-puzzle guess history in browser
 * storage. Storage is a string-keyed map; a guess log is kept as its JSON
 * text, which is modelled by the list it encodes (`Json`), so parsing the
 * stored text gives back the list that was stored.
 */
module ClientModel {
  import opened Common
  import opened StorageKeys
  import PuzzleService
  import LegacyPuzzles

  /** The client's result enum: the server's five results plus the local
      placeholder PENDING. */
  datatype QueryResult = TRUE | FALSE | UNRELATED | GAMEOVER | ERROR | PENDING

  const ResultCodes: set<int> := {0, 1, 2, 4, 500, -1}

  function Code(r: QueryResult): (c: int)
    ensures c in ResultCodes
  {
    match r
    case TRUE => 0
    case FALSE => 1
    case UNRELATED => 2
    case GAMEOVER => 4
    case ERROR => 500
    case PENDING => -1
  }

  function FromCode(c: int): (r: Option<QueryResult>)
    ensures r.Some? <==> c in ResultCodes
    ensures r.Some? ==> Code(r.value) == c
  {
    if c == 0 then Some(TRUE)
    else if c == 1 then Some(FALSE)
    else if c == 2 then Some(UNRELATED)
    else if c == 4 then Some(GAMEOVER)
    else if c == 500 then Some(ERROR)
    else if c == -1 then Some(PENDING)
    else None
  }

  /** Whatever either server returns reads on the client as a settled result
      with the same code, never as PENDING. */
  lemma ServerResultsSettled(r: PuzzleService.QueryResult, l: LegacyPuzzles.QueryResult)
    ensures FromCode(PuzzleService.Code(r)).Some? && FromCode(PuzzleService.Code(r)).value != PENDING
    ensures FromCode(LegacyPuzzles.Code(l)).Some? && FromCode(LegacyPuzzles.Code(l)).value != PENDING
  {
  }

  datatype Guess = Guess(content: string, result: QueryResult)

  /** The body of a successful guess response; `story` is sent with a GAMEOVER. */
  datatype MakeGuessRespBody = MakeGuessRespBody(guess: Guess, story: Option<string>)

  /** What `fetch` gives back: a rejected promise, or a response with its `ok`
      flag and (when ok) its parsed body. */
  datatype FetchResult = Rejected | Responded(ok: bool, body: MakeGuessRespBody)

  /** JavaScript truthiness of an optional string. */
  predicate Truthy(story: Option<string>)
  {
    story.Some? && story.value != ""
  }

  /** A stored value: plain text, or the JSON text of a guess list. */
  datatype Item = Text(text: string) | Json(guesses: seq<Guess>)

  type Store = map<string, Item>

  /** The shape the client relies on: a log key holds a guess list (or the
      empty text), a story key holds text. */
  ghost predicate WellFormed(s: Store)
  {
    && (forall id :: GuessesKey(id) in s ==> s[GuessesKey(id)].Json? || s[GuessesKey(id)] == Text(""))
    && (forall id :: StoryKey(id) in s ==> s[StoryKey(id)].Text?)
  }

  /** The keys of distinct puzzles, and log and story keys, never collide. */
  lemma AllKeysSeparate()
    ensures forall a, b :: GuessesKey(a) == GuessesKey(b) ==> a == b
    ensures forall a, b :: StoryKey(a) == StoryKey(b) ==> a == b
    ensures forall a, b :: GuessesKey(a) != StoryKey(b)
  {
    forall a, b ensures GuessesKey(a) == GuessesKey(b) ==> a == b {
      KeysSeparate(a, b);
    }
    forall a, b ensures StoryKey(a) == StoryKey(b) ==> a == b {
      KeysSeparate(a, b);
    }
    forall a, b ensures GuessesKey(a) != StoryKey(b) {
      KeysSeparate(a, b);
    }
  }

  /** The guess log of a puzzle as the client reads it: the stored list, or
      empty when the entry is missing or (in a well-formed store, the only
      other case) the empty text. */
  function LoadGuesses(s: Store, puzzleId: int): (gs: seq<Guess>)
    ensures GuessesKey(puzzleId) !in s ==> gs == []
  {
    var key := GuessesKey(puzzleId);
    if key in s && s[key].Json? then s[key].guesses else []
  }

  /** The revealed story of a puzzle, or null. */
  function LoadStory(s: Store, puzzleId: int): (story: Option<string>)
    ensures StoryKey(puzzleId) !in s ==> story.None?
  {
    var key := StoryKey(puzzleId);
    if key in s && s[key].Text? then Some(s[key].text) else None
  }

  /** The two keys an operation on `puzzleId` may touch. */
  predicate OwnKey(k: string, puzzleId: int)
  {
    k == GuessesKey(puzzleId) || k == StoryKey(puzzleId)
  }

  /** Storage after an ok guess response for `puzzleId`. */
  function Recorded(s: Store, puzzleId: int, body: MakeGuessRespBody): (r: Store)
    // the response's guess is appended to the stored log
    ensures LoadGuesses(r, puzzleId) == LoadGuesses(s, puzzleId) + [body.guess]
    // the story entry is written only for a truthy story
    ensures LoadStory(r, puzzleId) == if Truthy(body.story) then body.story else LoadStory(s, puzzleId)
  {
    var logged := s[GuessesKey(puzzleId) := Json(LoadGuesses(s, puzzleId) + [body.guess])];
    if Truthy(body.story) then logged[StoryKey(puzzleId) := Text(body.story.value)] else logged
  }

  /** Storage after the puzzle is cleared. */
  function Cleared(s: Store, puzzleId: int): (r: Store)
    ensures LoadGuesses(r, puzzleId) == [] && LoadStory(r, puzzleId) == None
  {
    s - {GuessesKey(puzzleId), StoryKey(puzzleId)}
  }

  /** Recording keeps the store well formed. */
  lemma RecordedWellFormed(s: Store, puzzleId: int, body: MakeGuessRespBody)
    requires WellFormed(s)
    ensures WellFormed(Recorded(s, puzzleId, body))
  {
    AllKeysSeparate();
  }

  /** Clearing keeps the store well formed. */
  lemma ClearedWellFormed(s: Store, puzzleId: int)
    requires WellFormed(s)
    ensures WellFormed(Cleared(s, puzzleId))
  {
  }

  /** Recording and clearing touch only the puzzle's own two keys. */
  lemma OnlyOwnKeysChange(s: Store, puzzleId: int, body: MakeGuessRespBody, k: string)
    requires !OwnKey(k, puzzleId)
    ensures k in Recorded(s, puzzleId, body) <==> k in s
    ensures k in s ==> Recorded(s, puzzleId, body)[k] == s[k]
    ensures k in Cleared(s, puzzleId) <==> k in s
    ensures k in s ==> Cleared(s, puzzleId)[k] == s[k]
  {
  }

  /** Clearing twice is clearing once. */
  lemma ClearIdempotent(s: Store, puzzleId: int)
    ensures Cleared(Cleared(s, puzzleId), puzzleId) == Cleared(s, puzzleId)
  {
  }

  /** Recording or clearing one puzzle leaves every other puzzle's log and story as they were. */
  lemma OtherPuzzlesUntouched(s: Store, p: int, q: int, body: MakeGuessRespBody)
    requires p != q
    ensures LoadGuesses(Recorded(s, p, body), q) == LoadGuesses(s, q)
    ensures LoadStory(Recorded(s, p, body), q) == LoadStory(s, q)
    ensures LoadGuesses(Cleared(s, p), q) == LoadGuesses(s, q)
    ensures LoadStory(Cleared(s, p), q) == LoadStory(s, q)
  {
    KeysSeparate(p, q);
    KeysSeparate(q, p);
  }

  /** Storage after a run of ok responses for one puzzle, in order. */
  function RecordedAll(s: Store, puzzleId: int, bodies: seq<MakeGuessRespBody>): Store
    decreases |bodies|
  {
    if bodies == [] then s else RecordedAll(Recorded(s, puzzleId, bodies[0]), puzzleId, bodies[1..])
  }

  /** The guesses a run of responses carries, in order. */
  function GuessesOf(bodies: seq<MakeGuessRespBody>): (gs: seq<Guess>)
    ensures |gs| == |bodies|
    decreases |bodies|
  {
    if bodies == [] then [] else [bodies[0].guess] + GuessesOf(bodies[1..])
  }

  /** The i-th guess carried is the i-th response's guess. */
  lemma {:induction false} GuessesOfAt(bodies: seq<MakeGuessRespBody>, i: int)
    requires 0 <= i < |bodies|
    ensures GuessesOf(bodies)[i] == bodies[i].guess
    decreases |bodies|
  {
    if i > 0 {
      GuessesOfAt(bodies[1..], i - 1);
    }
  }

  /** The story left by a run of responses: the last truthy one, else `before`. */
  function LastStory(bodies: seq<MakeGuessRespBody>, before: Option<string>): Option<string>
    decreases |bodies|
  {
    if bodies == [] then before
    else LastStory(bodies[1..], if Truthy(bodies[0].story) then bodies[0].story else before)
  }

  /** Loading after a run of responses gives the old log followed by exactly
      the responses' guesses, in order. */
  lemma {:induction false} LogAfterRecords(s: Store, puzzleId: int, bodies: seq<MakeGuessRespBody>)
    ensures LoadGuesses(RecordedAll(s, puzzleId, bodies), puzzleId) == LoadGuesses(s, puzzleId) + GuessesOf(bodies)
    decreases |bodies|
  {
    if bodies != [] {
      LogAfterRecords(Recorded(s, puzzleId, bodies[0]), puzzleId, bodies[1..]);
    }
  }

  /** The story after a run of responses is the last truthy one they carried,
      else the one stored before. */
  lemma {:induction false} StoryAfterRecords(s: Store, puzzleId: int, bodies: seq<MakeGuessRespBody>)
    ensures LoadStory(RecordedAll(s, puzzleId, bodies), puzzleId) == LastStory(bodies, LoadStory(s, puzzleId))
    decreases |bodies|
  {
    if bodies != [] {
      var s1 := Recorded(s, puzzleId, bodies[0]);
      StoryAfterRecords(s1, puzzleId, bodies[1..]);
    }
  }

  /** After a restart, replaying responses g1..gn loads exactly [g1..gn], and a
      story is present iff one of the responses carried a truthy story. */
  lemma {:induction false} ReplayAfterClear(s: Store, puzzleId: int, bodies: seq<MakeGuessRespBody>)
    ensures LoadGuesses(RecordedAll(Cleared(s, puzzleId), puzzleId, bodies), puzzleId) == GuessesOf(bodies)
    ensures LoadStory(RecordedAll(Cleared(s, puzzleId), puzzleId, bodies), puzzleId).Some?
            <==> exists i :: 0 <= i < |bodies| && Truthy(bodies[i].story)
  {
    LogAfterRecords(Cleared(s, puzzleId), puzzleId, bodies);
    StoryAfterRecords(Cleared(s, puzzleId), puzzleId, bodies);
    LastStoryPresent(bodies, None);
  }

  lemma {:induction false} LastStoryPresent(bodies: seq<MakeGuessRespBody>, before: Option<string>)
    ensures LastStory(bodies, before).Some? <==>
            before.Some? || exists i :: 0 <= i < |bodies| && Truthy(bodies[i].story)
    decreases |bodies|
  {
    if bodies != [] {
      var next := if Truthy(bodies[0].story) then bodies[0].story else before;
      LastStoryPresent(bodies[1..], next);
      assert forall i :: 0 < i < |bodies| ==> bodies[i] == bodies[1..][i - 1];
      if exists i :: 0 <= i < |bodies| && Truthy(bodies[i].story) {
        var i :| 0 <= i < |bodies| && Truthy(bodies[i].story);
        if i > 0 {
          assert Truthy(bodies[1..][i - 1].story);
        }
      }
    }
  }

  /** The browser's `localStorage`, as far as the client uses it. */
  class LocalStore {
    var items: Store

    ghost predicate Valid()
      reads this
    {
      WellFormed(items)
    }

    constructor (initial: Store)
      requires WellFormed(initial)
      ensures Valid() && items == initial
    {
      items := initial;
    }

    /** `getGuessesOfPuzzle`. */
    method GetGuessesOfPuzzle(puzzleId: int) returns (gs: seq<Guess>)
      requires Valid()
      ensures gs == LoadGuesses(items, puzzleId)
    {
      var key := GuessesKey(puzzleId);
      if key !in items || items[key] == Text("") {
        return [];
      }
      return items[key].guesses;
    }

    /** `getStoryOfPuzzle`. */
    method GetStoryOfPuzzle(puzzleId: int) returns (story: Option<string>)
      requires Valid()
      ensures story == LoadStory(items, puzzleId)
    {
      var key := StoryKey(puzzleId);
      if key in items {
        return Some(items[key].text);
      }
      return None;
    }

    /** `makeGuess` after the request: a non-ok or rejected response throws and
        leaves storage alone; an ok one appends the guess and keeps a truthy story. */
    method MakeGuess(puzzleId: int, fetched: FetchResult) returns (outcome: Outcome<MakeGuessRespBody>)
      requires Valid()
      modifies this
      ensures Valid()
      ensures outcome.Threw? <==> !(fetched.Responded? && fetched.ok)
      ensures outcome.Returned? ==> outcome.value == fetched.body
                                    && items == Recorded(old(items), puzzleId, fetched.body)
      ensures outcome.Threw? ==> items == old(items)
    {
      if fetched.Rejected? || !fetched.ok {
        return Threw;
      }
      var respBody := fetched.body;
      var newGuess := respBody.guess;
      var guesses := GetGuessesOfPuzzle(puzzleId);
      items := items[GuessesKey(puzzleId) := Json(guesses + [newGuess])];
      if Truthy(respBody.story) {
        items := items[StoryKey(puzzleId) := Text(respBody.story.value)];
      }
      assert items == Recorded(old(items), puzzleId, respBody);
      RecordedWellFormed(old(items), puzzleId, respBody);
      return Returned(respBody);
    }

    /** `clearPuzzle`: removes the log entry, then the story entry. */
    method ClearPuzzle(puzzleId: int)
      requires Valid()
      modifies this
      ensures Valid() && items == Cleared(old(items), puzzleId)
    {
      items := items - {GuessesKey(puzzleId)};
      items := items - {StoryKey(puzzleId)};
      assert items == Cleared(old(items), puzzleId);
      ClearedWellFormed(old(items), puzzleId);
    }
  }
}
