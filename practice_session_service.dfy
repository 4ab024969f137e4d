/**
 * Practice sessions: a session covers either the song's full section or its
 * highlight, with times written as 1970-01-01T00:00 plus the section's
 * boundary seconds.
 */
module PracticeSessionService {
  import opened Wrappers
  import opened Strings
  import opened Entities

  datatype PracticeSession = PracticeSession(
    id: int,
    user: AppUser,
    song: Song,
    startTime: DateTime,
    endTime: DateTime,
    mode: string)

  datatype PracticeError = IllegalArgument(message: string)

  /** The practice session table, in insertion order. */
  class PracticeSessionRepository {
    var sessions: seq<PracticeSession>

    constructor ()
      ensures sessions == []
    {
      sessions := [];
    }

    method Save(s: PracticeSession)
      modifies this
      ensures sessions == old(sessions) + [s]
    {
      sessions := sessions + [s];
    }
  }

  /** The start and end seconds a section names: "full" or "highlight" in any case, None for anything else. */
  function SectionWindow(song: Song, section: string): (w: Option<(int, int)>)
    ensures w.Some? <==> EqualsIgnoreCase(section, "full") || EqualsIgnoreCase(section, "highlight")
    ensures EqualsIgnoreCase(section, "full") ==> w == Some((song.fullStartTime, song.fullEndTime))
    ensures EqualsIgnoreCase(section, "highlight") ==> w == Some((song.highlightStartTime, song.highlightEndTime))
  {
    EqualsIgnoreCaseIsLowerEquality(section, "full");
    EqualsIgnoreCaseIsLowerEquality(section, "highlight");
    assert ToLowerCase("full") == "full";
    assert ToLowerCase("highlight") == "highlight";
    var key := ToLowerCase(section);
    if key == "full" then Some((song.fullStartTime, song.fullEndTime))
    else if key == "highlight" then Some((song.highlightStartTime, song.highlightEndTime))
    else None
  }

  /** Only the letters' case-free form of the section matters. */
  lemma SectionWindowIgnoresCase(song: Song, a: string, b: string)
    requires EqualsIgnoreCase(a, b)
    ensures SectionWindow(song, a) == SectionWindow(song, b)
  {
    EqualsIgnoreCaseIsLowerEquality(a, b);
  }

  /** A practice session lasts exactly as long as its section, to the second. */
  lemma SessionSpansSection(startSec: int, endSec: int)
    ensures PlusSeconds(Epoch, startSec).epochSecond == startSec
    ensures DurationSeconds(PlusSeconds(Epoch, startSec), PlusSeconds(Epoch, endSec)) == endSec - startSec
  {
    var d := DurationSeconds(PlusSeconds(Epoch, startSec), PlusSeconds(Epoch, endSec));
    assert TotalNanos(PlusSeconds(Epoch, endSec)) - TotalNanos(PlusSeconds(Epoch, startSec)) == (endSec - startSec) * 1_000_000_000;
  }

  /**
   * `startPracticeSessionByUsername`: `user` and `song` are the lookups, and
   * `newId` the id the table assigns. The mode is stored exactly as given.
   */
  method StartPracticeSessionByUsername(repo: PracticeSessionRepository, user: Option<AppUser>, username: string,
                                        song: Option<Song>, songId: int, section: string, newId: int)
    returns (r: Result<PracticeSession, PracticeError>)
    modifies repo
    ensures user.None? ==> r == Failure(IllegalArgument("User not found: " + username))
    ensures user.Some? && song.None? ==> r == Failure(IllegalArgument("Song not found: " + IntToString(songId)))
    ensures user.Some? && song.Some? && SectionWindow(song.value, section).None? ==>
      r == Failure(IllegalArgument("Invalid section: " + section))
    ensures user.Some? && song.Some? && SectionWindow(song.value, section).Some? ==>
      var (startSec, endSec) := SectionWindow(song.value, section).value;
      r == Success(PracticeSession(newId, user.value, song.value,
                                   PlusSeconds(Epoch, startSec), PlusSeconds(Epoch, endSec), section))
    ensures repo.sessions == if r.Success? then old(repo.sessions) + [r.value] else old(repo.sessions)
  {
    if user.None? {
      return Failure(IllegalArgument("User not found: " + username));
    }
    if song.None? {
      return Failure(IllegalArgument("Song not found: " + IntToString(songId)));
    }
    var window := SectionWindow(song.value, section);
    if window.None? {
      return Failure(IllegalArgument("Invalid section: " + section));
    }
    var (startSec, endSec) := window.value;
    var startTime := PlusSeconds(Epoch, startSec);
    var endTime := PlusSeconds(Epoch, endSec);
    var session := PracticeSession(newId, user.value, song.value, startTime, endTime, section);
    repo.Save(session);
    r := Success(session);
  }

  /** `startFullPracticeSessionByUsername`: the full section. */
  method StartFullPracticeSessionByUsername(repo: PracticeSessionRepository, user: Option<AppUser>, username: string,
                                            song: Option<Song>, songId: int, newId: int)
    returns (r: Result<PracticeSession, PracticeError>)
    modifies repo
    ensures user.Some? && song.Some? ==>
      r == Success(PracticeSession(newId, user.value, song.value, PlusSeconds(Epoch, song.value.fullStartTime),
                                   PlusSeconds(Epoch, song.value.fullEndTime), "full"))
    ensures user.None? ==> r == Failure(IllegalArgument("User not found: " + username))
    ensures user.Some? && song.None? ==> r == Failure(IllegalArgument("Song not found: " + IntToString(songId)))
    ensures repo.sessions == if r.Success? then old(repo.sessions) + [r.value] else old(repo.sessions)
  {
    assert EqualsIgnoreCase("full", "full");
    r := StartPracticeSessionByUsername(repo, user, username, song, songId, "full", newId);
  }

  /** `startHighlightPracticeSessionByUsername`: the highlight section. */
  method StartHighlightPracticeSessionByUsername(repo: PracticeSessionRepository, user: Option<AppUser>, username: string,
                                                 song: Option<Song>, songId: int, newId: int)
    returns (r: Result<PracticeSession, PracticeError>)
    modifies repo
    ensures user.Some? && song.Some? ==>
      r == Success(PracticeSession(newId, user.value, song.value, PlusSeconds(Epoch, song.value.highlightStartTime),
                                   PlusSeconds(Epoch, song.value.highlightEndTime), "highlight"))
    ensures user.None? ==> r == Failure(IllegalArgument("User not found: " + username))
    ensures user.Some? && song.None? ==> r == Failure(IllegalArgument("Song not found: " + IntToString(songId)))
    ensures repo.sessions == if r.Success? then old(repo.sessions) + [r.value] else old(repo.sessions)
  {
    assert EqualsIgnoreCase("highlight", "highlight");
    assert !EqualsIgnoreCase("highlight", "full");
    r := StartPracticeSessionByUsername(repo, user, username, song, songId, "highlight", newId);
  }

  /** `getFullEndTime`. */
  function GetFullEndTime(song: Option<Song>, songId: int): (r: Result<int, PracticeError>)
    ensures song.None? ==> r == Failure(IllegalArgument("Song not found: " + IntToString(songId)))
    ensures song.Some? ==> r.Success?
  {
    match song
    case None => Failure(IllegalArgument("Song not found: " + IntToString(songId)))
    case Some(s) => Success(s.fullEndTime)
  }

  /** `getHighlightRange`: a two-element array. */
  function GetHighlightRange(song: Option<Song>, songId: int): (r: Result<seq<int>, PracticeError>)
    ensures song.None? ==> r == Failure(IllegalArgument("Song not found: " + IntToString(songId)))
    ensures song.Some? ==> r.Success? && |r.value| == 2
  {
    match song
    case None => Failure(IllegalArgument("Song not found: " + IntToString(songId)))
    case Some(s) => Success([s.highlightStartTime, s.highlightEndTime])
  }

  /** The queried boundaries are the ones a practice session of that section is built from. */
  lemma QueriesAgreeWithSections(song: Song, songId: int)
    ensures GetHighlightRange(Some(song), songId).value == [SectionWindow(song, "highlight").value.0, SectionWindow(song, "highlight").value.1]
    ensures GetFullEndTime(Some(song), songId).value == SectionWindow(song, "full").value.1
  {
    assert EqualsIgnoreCase("highlight", "highlight");
    assert !EqualsIgnoreCase("highlight", "full");
    assert EqualsIgnoreCase("full", "full");
  }
}
