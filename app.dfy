/**
 * The state of the client's single page, without its rendering: the puzzle
 * list, the selected puzzle, the guess list shown, the revealed story, the
 * in-flight flag and the draft statement, plus the draft cache that outlives
 * the page. Each event handler and effect is a method; promise callbacks are
 * separate methods that receive what the closure captured.
 */
module ClientApp {
  import opened Common
  import opened ClientModel

  /** A puzzle as the client lists it. */
  datatype Puzzle = Puzzle(id: int, lead: string)

  const GuideId: int := -1

  /** The built-in guide page, listed like a puzzle with id -1. */
  const Guide: Puzzle := Puzzle(GuideId, "What is this? Where do I start? ")

  /** What the callbacks of an accepted submission captured: the puzzle id,
      the statement sent, and the guess list before the placeholder. */
  datatype Submission = Submission(puzzleId: int, content: string, oldGuesses: seq<Guess>)

  predicate HasPuzzle(ps: seq<Puzzle>, id: int)
  {
    exists k :: 0 <= k < |ps| && ps[k].id == id
  }

  /** The guide insertion of the loading effect: prepend the guide unless a
      puzzle with its id is already listed. */
  function WithGuide(ps: seq<Puzzle>): (r: seq<Puzzle>)
    ensures HasPuzzle(r, GuideId)
    ensures r == ps || r == [Guide] + ps
    ensures HasPuzzle(ps, GuideId) ==> r == ps
  {
    if HasPuzzle(ps, GuideId) then ps
    else
      assert ([Guide] + ps)[0].id == GuideId;
      [Guide] + ps
  }

  /** Inserting the guide a second time changes nothing. */
  lemma WithGuideIdempotent(ps: seq<Puzzle>)
    ensures WithGuide(WithGuide(ps)) == WithGuide(ps)
  {
  }

  /** `guessCache.get(id) || ""`: the cached draft, or the empty draft when
      none is cached. */
  function Draft(drafts: map<int, string>, id: int): (d: string)
    ensures d == "" <==> id !in drafts || drafts[id] == ""
    ensures d != "" ==> id in drafts && d == drafts[id]
  {
    if id in drafts then drafts[id] else ""
  }

  predicate HasGameOver(gs: seq<Guess>)
  {
    exists i :: 0 <= i < |gs| && gs[i].result == GAMEOVER
  }

  /** `gs.find(g => g.result === QueryResult.GAMEOVER)`: the first guess
      judged GAMEOVER, if any. */
  function FindGameOver(gs: seq<Guess>): (r: Option<Guess>)
    ensures r.None? <==> !HasGameOver(gs)
    ensures r.Some? ==> exists k :: 0 <= k < |gs| && gs[k] == r.value && r.value.result == GAMEOVER
                                    && forall j :: 0 <= j < k ==> gs[j].result != GAMEOVER
  {
    if |gs| == 0 then None
    else if gs[0].result == GAMEOVER then Some(gs[0])
    else
      var r := FindGameOver(gs[1..]);
      assert r.Some? ==> exists k :: 0 <= k < |gs[1..]| && gs[1..][k] == r.value
                                    && forall j :: 0 <= j < k ==> gs[1..][j].result != GAMEOVER;
      assert forall k :: 0 <= k < |gs[1..]| ==> gs[1..][k] == gs[k + 1];
      r
  }

  /** The module-level draft map, keyed by puzzle id. */
  class DraftCache {
    var drafts: map<int, string>

    constructor ()
      ensures drafts == map[]
    {
      drafts := map[];
    }
  }

  class App {
    var puzzles: seq<Puzzle>
    var currentPuzzle: Option<Puzzle>
    var guesses: seq<Guess>
    var fullStory: Option<string>
    var processing: bool
    var guess: string
    const storage: LocalStore
    const cache: DraftCache

    /** Storage stays well formed, and the draft shown is the cached draft of
        the selected puzzle (empty when none is selected). */
    ghost predicate Valid()
      reads this, storage, cache
    {
      && storage.Valid()
      && guess == (if currentPuzzle.Some? then Draft(cache.drafts, currentPuzzle.value.id) else "")
    }

    /** The input box and the submit button are disabled while a guess is in
        flight and once the story is revealed. */
    function InputEnabled(): (b: bool)
      reads this
      ensures b ==> !processing && fullStory.None?
      ensures fullStory == Some("") ==> !b
    {
      !processing && fullStory.None?
    }

    constructor (storage: LocalStore, cache: DraftCache)
      requires storage.Valid()
      ensures Valid() && this.storage == storage && this.cache == cache
      ensures puzzles == [] && currentPuzzle == None && guesses == []
      ensures fullStory == None && !processing && guess == ""
    {
      this.storage := storage;
      this.cache := cache;
      puzzles := [];
      currentPuzzle := None;
      guesses := [];
      fullStory := None;
      processing := false;
      guess := "";
    }

    /** `onInputChange`: the draft follows the input, and is cached, only
        while a puzzle is selected. */
    method OnInputChange(value: string)
      requires Valid()
      modifies this, cache
      ensures Valid()
      ensures old(currentPuzzle).Some? ==>
                guess == value && cache.drafts == old(cache.drafts)[old(currentPuzzle).value.id := value]
      ensures old(currentPuzzle).None? ==> unchanged(this) && unchanged(cache)
      ensures puzzles == old(puzzles) && currentPuzzle == old(currentPuzzle) && guesses == old(guesses)
      ensures fullStory == old(fullStory) && processing == old(processing)
    {
      if currentPuzzle.Some? {
        guess := value;
        cache.drafts := cache.drafts[currentPuzzle.value.id := value];
      }
    }

    /** `submitGuess` up to the request: ignored while a guess is in flight,
        with no puzzle or the guide selected, or with an empty draft; else it
        sets the flag, empties the draft and shows the statement as PENDING. */
    method SubmitGuess() returns (submission: Option<Submission>)
      requires Valid()
      modifies this, cache
      ensures Valid()
      ensures submission.None? <==>
                old(processing) || old(currentPuzzle).None? || old(currentPuzzle).value.id < 0 || old(guess) == ""
      ensures submission.None? ==> unchanged(this) && unchanged(cache)
      ensures submission.Some? ==>
                && submission.value == Submission(old(currentPuzzle).value.id, old(guess), old(guesses))
                && processing && guess == ""
                && cache.drafts == old(cache.drafts)[old(currentPuzzle).value.id := ""]
                && guesses == old(guesses) + [Guess(old(guess), PENDING)]
      ensures puzzles == old(puzzles) && currentPuzzle == old(currentPuzzle) && fullStory == old(fullStory)
    {
      if processing || currentPuzzle.None? || currentPuzzle.value.id < 0 || guess == "" {
        return None;
      }
      var id := currentPuzzle.value.id;
      var content := guess;
      processing := true;
      guess := "";
      cache.drafts := cache.drafts[id := ""];
      var newGuess := Guess(content, PENDING);
      var oldGuesses := guesses;
      guesses := oldGuesses + [newGuess];
      return Some(Submission(id, content, oldGuesses));
    }

    /** The `then`/`catch`/`finally` of a submission: on an ok response the
        placeholder gives way to the server's guess and a truthy story is
        revealed; on a failure the list is left as it is; either way the
        in-flight flag is cleared. */
    method OnResponse(submission: Submission, fetched: FetchResult)
      requires Valid()
      modifies this, storage
      ensures Valid() && !processing
      ensures fetched.Responded? && fetched.ok ==>
                && storage.items == Recorded(old(storage.items), submission.puzzleId, fetched.body)
                && guesses == submission.oldGuesses + [fetched.body.guess]
                && fullStory == (if Truthy(fetched.body.story) then fetched.body.story else old(fullStory))
      ensures !(fetched.Responded? && fetched.ok) ==>
                storage.items == old(storage.items) && guesses == old(guesses) && fullStory == old(fullStory)
      ensures puzzles == old(puzzles) && currentPuzzle == old(currentPuzzle) && guess == old(guess)
    {
      var result := storage.MakeGuess(submission.puzzleId, fetched);
      if result.Returned? {
        guesses := submission.oldGuesses + [result.value.guess];
        if Truthy(result.value.story) {
          fullStory := result.value.story;
        }
      }
      processing := false;
    }

    /** `restart`: empties the list, hides the story and clears the selected
        puzzle's storage. */
    method Restart()
      requires Valid()
      modifies this, storage
      ensures Valid() && guesses == [] && fullStory == None
      ensures old(currentPuzzle).Some? ==>
                storage.items == Cleared(old(storage.items), old(currentPuzzle).value.id)
      ensures old(currentPuzzle).None? ==> storage.items == old(storage.items)
      ensures puzzles == old(puzzles) && currentPuzzle == old(currentPuzzle)
      ensures processing == old(processing) && guess == old(guess)
    {
      guesses := [];
      fullStory := None;
      if currentPuzzle.Some? {
        storage.ClearPuzzle(currentPuzzle.value.id);
      }
    }

    /** `setCurrentPuzzle(p)` and the effect that runs when the selection
        changes: the stored log is shown, the story is shown iff the log holds
        a GAMEOVER, and the cached draft is restored. */
    method SelectPuzzle(p: Puzzle)
      requires Valid()
      modifies this
      ensures Valid()
      ensures old(currentPuzzle) == Some(p) ==> unchanged(this)
      ensures old(currentPuzzle) != Some(p) ==>
                && currentPuzzle == Some(p)
                && guesses == LoadGuesses(storage.items, p.id)
                && fullStory == (if HasGameOver(guesses) then LoadStory(storage.items, p.id) else None)
                && guess == Draft(cache.drafts, p.id)
      ensures puzzles == old(puzzles) && processing == old(processing)
    {
      if currentPuzzle == Some(p) {
        return;
      }
      currentPuzzle := Some(p);
      var stored := storage.GetGuessesOfPuzzle(p.id);
      guesses := stored;
      if FindGameOver(stored).Some? {
        fullStory := storage.GetStoryOfPuzzle(p.id);
      } else {
        fullStory := None;
      }
      guess := Draft(cache.drafts, p.id);
    }

    /** The loading effect: keep the fetched list (on failure, the current
        one), insert the guide, and select the guide. */
    method LoadPuzzles(fetched: Option<seq<Puzzle>>)
      requires Valid()
      modifies this
      ensures Valid()
      ensures puzzles == WithGuide(if fetched.Some? then fetched.value else old(puzzles))
      ensures currentPuzzle == Some(Guide) && processing == old(processing)
      ensures guess == Draft(cache.drafts, GuideId)
      ensures old(currentPuzzle) != Some(Guide) ==>
                && guesses == LoadGuesses(storage.items, GuideId)
                && fullStory == (if HasGameOver(guesses) then LoadStory(storage.items, GuideId) else None)
      ensures old(currentPuzzle) == Some(Guide) ==> guesses == old(guesses) && fullStory == old(fullStory)
    {
      if fetched.Some? {
        puzzles := fetched.value;
      }
      puzzles := WithGuide(puzzles);
      SelectPuzzle(Guide);
    }

    /** A submission followed by its response: on success the placeholder is
        replaced by the server's guess; on failure it stays, still PENDING. */
    method SubmitAndAwait(fetched: FetchResult) returns (submission: Option<Submission>)
      requires Valid()
      modifies this, cache, storage
      ensures Valid()
      ensures submission.None? <==>
                old(processing) || old(currentPuzzle).None? || old(currentPuzzle).value.id < 0 || old(guess) == ""
      ensures puzzles == old(puzzles) && currentPuzzle == old(currentPuzzle)
      ensures submission.None? ==> unchanged(this) && unchanged(cache) && storage.items == old(storage.items)
      ensures submission.Some? ==>
                && submission.value == Submission(old(currentPuzzle).value.id, old(guess), old(guesses))
                && !processing && guess == ""
                && cache.drafts == old(cache.drafts)[old(currentPuzzle).value.id := ""]
      ensures submission.Some? && fetched.Responded? && fetched.ok ==>
                && guesses == old(guesses) + [fetched.body.guess]
                && storage.items == Recorded(old(storage.items), old(currentPuzzle).value.id, fetched.body)
                && fullStory == (if Truthy(fetched.body.story) then fetched.body.story else old(fullStory))
      ensures submission.Some? && !(fetched.Responded? && fetched.ok) ==>
                && guesses == old(guesses) + [Guess(old(guess), PENDING)]
                && storage.items == old(storage.items) && fullStory == old(fullStory)
    {
      submission := SubmitGuess();
      if submission.Some? {
        OnResponse(submission.value, fetched);
      }
    }

    /** A failed submission, then a new draft submitted: the first statement
        is still shown as PENDING beside the second one. */
    method RetryAfterFailure(fetched: FetchResult, second: string)
      returns (first: Option<Submission>, retry: Option<Submission>)
      requires Valid()
      requires !processing && currentPuzzle.Some? && currentPuzzle.value.id >= 0
      requires guess != "" && second != ""
      requires !(fetched.Responded? && fetched.ok)
      modifies this, cache, storage
      ensures Valid() && first.Some? && retry.Some? && processing
      ensures guesses == old(guesses) + [Guess(old(guess), PENDING), Guess(second, PENDING)]
    {
      first := SubmitAndAwait(fetched);
      OnInputChange(second);
      retry := SubmitGuess();
    }

    /** The submit button and the Enter key of the input box: neither reaches
        `submitGuess` while the controls are disabled; otherwise they act as it
        does. */
    method SubmitFromInput() returns (submission: Option<Submission>)
      requires Valid()
      modifies this, cache
      ensures Valid()
      ensures submission.None? <==>
                !old(InputEnabled()) || old(currentPuzzle).None? || old(currentPuzzle).value.id < 0 || old(guess) == ""
      ensures submission.None? ==> unchanged(this) && unchanged(cache)
      ensures submission.Some? ==>
                && submission.value == Submission(old(currentPuzzle).value.id, old(guess), old(guesses))
                && processing && guess == ""
                && cache.drafts == old(cache.drafts)[old(currentPuzzle).value.id := ""]
                && guesses == old(guesses) + [Guess(old(guess), PENDING)]
      ensures puzzles == old(puzzles) && currentPuzzle == old(currentPuzzle) && fullStory == old(fullStory)
    {
      if !InputEnabled() {
        return None;
      }
      submission := SubmitGuess();
    }

    /** Typing in the input box: no change events arrive while it is disabled;
        otherwise it acts as `onInputChange`. */
    method TypeInInput(value: string)
      requires Valid()
      modifies this, cache
      ensures Valid()
      ensures !old(InputEnabled()) || old(currentPuzzle).None? ==> unchanged(this) && unchanged(cache)
      ensures old(InputEnabled()) && old(currentPuzzle).Some? ==>
                guess == value && cache.drafts == old(cache.drafts)[old(currentPuzzle).value.id := value]
      ensures puzzles == old(puzzles) && currentPuzzle == old(currentPuzzle) && guesses == old(guesses)
      ensures fullStory == old(fullStory) && processing == old(processing)
    {
      if InputEnabled() {
        OnInputChange(value);
      }
    }
  }
}
