/**
 * The cached system prompt, checked against the files it was built from by their modification times.
 * The five tracked files are numbered; `disk(t, i)` is file `i` at moment `t`. Files may change between any
 * two looks at them.
 */
module PromptCache {
  import opened Text

  const TRACKED := 5
  const UNIX_ONE := 1_000_000_000

  datatype File = File(content: string, mtime: int)

  type Disk = (nat, nat) -> Option<File>

  /**
   * Every write is stamped later than all that was on disk before it: `stamp(t)` bounds the modification
   * times up to moment `t`, and a file that differs at the next moment has a later one.
   */
  ghost predicate Evolves(disk: Disk, stamp: nat -> int) {
    && (forall t: nat :: stamp(t) <= stamp(t + 1))
    && (forall t: nat, i: nat :: disk(t, i).Some? ==> disk(t, i).value.mtime <= stamp(t))
    && (forall t: nat, i: nat :: disk(t + 1, i).Some? && disk(t + 1, i) != disk(t, i) ==>
          stamp(t) < disk(t + 1, i).value.mtime)
  }

  function Content(f: Option<File>): Option<string> {
    match f
    case None => None
    case Some(file) => Some(file.content)
  }

  /** One moment for each tracked file. */
  type Moments = m: seq<nat> | |m| == TRACKED witness [0, 0, 0, 0, 0]

  /** What the prompt is built from when file `i` is read at moment `at[i]`. */
  function Contents(disk: Disk, at: Moments): (c: seq<Option<string>>)
    ensures |c| == TRACKED
  {
    seq(TRACKED, i requires 0 <= i < TRACKED => Content(disk(at[i], i)))
  }

  /** Whether a file was modified, created or deleted since the cache was built. */
  predicate FileChanged(existed: bool, now: Option<File>, cachedAt: int) {
    if existed != now.Some? then true
    else if now.None? then false
    else now.value.mtime > cachedAt
  }

  lemma {:induction false} StampGrows(disk: Disk, stamp: nat -> int, a: nat, b: nat)
    requires Evolves(disk, stamp) && a <= b
    ensures stamp(a) <= stamp(b)
    decreases b
  {
    if a < b {
      StampGrows(disk, stamp, a, b - 1);
      assert stamp(b - 1) <= stamp(b - 1 + 1);
    }
  }

  /** A file no newer than what was on disk at `a` has been as it is ever since. */
  lemma {:induction false} OldFileUnchanged(disk: Disk, stamp: nat -> int, i: nat, a: nat, t: nat, b: nat)
    requires Evolves(disk, stamp) && a <= t <= b
    requires disk(b, i).Some? && disk(b, i).value.mtime <= stamp(a)
    ensures disk(t, i) == disk(b, i)
    decreases b
  {
    if t < b {
      StampGrows(disk, stamp, a, b - 1);
      assert disk(b - 1 + 1, i) == disk(b, i);
      assert disk(b - 1, i) == disk(b, i);
      OldFileUnchanged(disk, stamp, i, a, t, b - 1);
    }
  }

  /** All files found at the given moments were last written by `time`. */
  ghost predicate NoNewerThan(disk: Disk, at: Moments, time: int) {
    forall i | 0 <= i < TRACKED && disk(at[i], i).Some? :: disk(at[i], i).value.mtime <= time
  }

  /** One of the first `n` files was last written at `time`. */
  ghost predicate Wrote(disk: Disk, at: Moments, n: int, time: int) {
    exists i | 0 <= i < Min(n, TRACKED) :: disk(at[i], i).Some? && disk(at[i], i).value.mtime == time
  }

  ghost predicate NoFiles(disk: Disk, at: Moments, n: int) {
    forall i | 0 <= i < Min(n, TRACKED) :: disk(at[i], i).None?
  }

  /** The files were looked at no later than `base`, and read from then on. */
  ghost predicate Staged(stat: Moments, base: nat, read: Moments) {
    forall i | 0 <= i < TRACKED :: stat[i] <= base <= read[i]
  }

  ghost predicate SameFiles(disk: Disk, a: Moments, b: Moments) {
    forall i | 0 <= i < TRACKED :: disk(a[i], i) == disk(b[i], i)
  }

  /** A tracked file that was missing from the baseline had appeared when it was read. */
  ghost predicate CreatedWhileBuilding(disk: Disk, stat: Moments, read: Moments) {
    exists i | 0 <= i < TRACKED :: disk(stat[i], i).None? && disk(read[i], i).Some?
  }

  /**
   * When no check sees a change, the cached contents are those at the check exactly when no tracked file
   * was created between the baseline and its reading.
   */
  lemma UnchangedIsFreshIff(disk: Disk, stamp: nat -> int, stat: Moments, base: nat, read: Moments, check: Moments,
                            cachedAt: int)
    requires Evolves(disk, stamp) && Staged(stat, base, read) && cachedAt <= stamp(base)
    requires forall i | 0 <= i < TRACKED ::
               read[i] <= check[i] && !FileChanged(disk(stat[i], i).Some?, disk(check[i], i), cachedAt)
    ensures Contents(disk, read) == Contents(disk, check) <==> !CreatedWhileBuilding(disk, stat, read)
  {
    forall i | 0 <= i < TRACKED && disk(stat[i], i).Some?
      ensures disk(read[i], i) == disk(check[i], i)
    {
      OldFileUnchanged(disk, stamp, i, base, read[i], check[i]);
    }
    if Contents(disk, read) == Contents(disk, check) {
      forall i | 0 <= i < TRACKED && disk(stat[i], i).None?
        ensures disk(read[i], i).None?
      {
        assert Contents(disk, read)[i] == Contents(disk, check)[i];
      }
    }
  }

  /** An edit between the baseline and the check is seen: a file that was there at the baseline counts as changed. */
  lemma EditIsSeen(disk: Disk, stamp: nat -> int, i: nat, base: nat, t: nat, check: nat, cachedAt: int)
    requires Evolves(disk, stamp) && base <= t <= check && cachedAt <= stamp(base)
    requires disk(t, i) != disk(check, i)
    ensures FileChanged(true, disk(check, i), cachedAt)
  {
    if disk(check, i).Some? && disk(check, i).value.mtime <= stamp(base) {
      OldFileUnchanged(disk, stamp, i, base, t, check);
      assert false;
    }
  }

  // ----- what the hypotheses are for

  /** A clock that is past the time the baseline takes for "no file". */
  function Stamp(t: nat): int { UNIX_ONE + t }

  /** File 0 appears at moment 1 and is gone from moment 2 on. */
  function Flicker(t: nat, i: nat): Option<File> {
    if i == 0 && t == 1 then Some(File("draft", Stamp(1))) else None
  }

  /** A file that is created, read and deleted again stays in the cached prompt unnoticed. */
  lemma FlickerGoesUnnoticed(stat: Moments, read: Moments, check: Moments)
    requires stat == [0, 0, 0, 0, 0] && read == [1, 1, 1, 1, 1] && check == [2, 2, 2, 2, 2]
    ensures Evolves(Flicker, Stamp) && Stamp(0) >= UNIX_ONE && Staged(stat, 0, read)
    ensures forall i | 0 <= i < TRACKED :: !FileChanged(Flicker(stat[i], i).Some?, Flicker(check[i], i), UNIX_ONE)
    ensures Contents(Flicker, read) != Contents(Flicker, check)
  {
    assert read[0] == 1 && check[0] == 2;
    assert Contents(Flicker, read)[0] == Content(Flicker(1, 0));
    assert Contents(Flicker, check)[0] == Content(Flicker(2, 0));
  }

  /** File 0 is rewritten at moment 1. */
  function Rewritten(t: nat, i: nat): Option<File> {
    if i != 0 then None else if t == 0 then Some(File("old", Stamp(0))) else Some(File("new", Stamp(1)))
  }

  /**
   * An edit at moment 1 of a file read at moment 0: with the baseline first, as the code has it, the next
   * check sees the edit; a baseline taken after the reading would hide it.
   */
  lemma LateBaselineHidesEdit(read: Moments, late: Moments)
    requires read == [0, 0, 0, 0, 0] && late == [1, 1, 1, 1, 1]
    ensures Evolves(Rewritten, Stamp) && Contents(Rewritten, read) != Contents(Rewritten, late)
    ensures FileChanged(Rewritten(read[0], 0).Some?, Rewritten(late[0], 0), Stamp(0))
    ensures forall i | 0 <= i < TRACKED :: !FileChanged(Rewritten(late[i], i).Some?, Rewritten(late[i], i), Stamp(1))
  {
    assert read[0] == 0 && late[0] == 1;
    assert Contents(Rewritten, read)[0] == Content(Rewritten(0, 0)) == Some("old");
    assert Contents(Rewritten, late)[0] == Content(Rewritten(1, 0)) == Some("new");
    assert "old"[0] != "new"[0];
    EditIsSeen(Rewritten, Stamp, 0, 0, 0, 1, Stamp(0));
  }

  // ----- the cache

  /** The moments at which one call looks at the files, and what it finds of the skills directory. */
  datatype Looks = Looks(
    fast: Moments, fastSkillsChanged: bool, slow: Moments, slowSkillsChanged: bool,
    stat: Moments, skillsMtime: Option<int>, base: nat, read: Moments)

  class ContextBuilder {
    const disk: Disk
    /** Builds the prompt from the contents of the tracked files; never empty. */
    const render: seq<Option<string>> -> string
    ghost const stamp: nat -> int

    var cachedSystemPrompt: string
    var cachedAt: Option<int>
    var existedAtCache: Option<seq<bool>>
    /** The moments of the baseline and of the reading behind the cached prompt. */
    ghost var stat: Moments
    ghost var base: nat
    ghost var read: Moments

    ghost predicate Valid()
      reads this
    {
      && Evolves(disk, stamp) && stamp(0) >= UNIX_ONE
      && (forall c :: render(c) != "")
      && (cachedSystemPrompt != "" ==>
            && cachedAt.Some? && existedAtCache.Some? && |existedAtCache.value| == TRACKED
            && Staged(stat, base, read) && cachedAt.value <= stamp(base)
            && (forall i | 0 <= i < TRACKED :: existedAtCache.value[i] == disk(stat[i], i).Some?)
            && NoNewerThan(disk, stat, cachedAt.value)
            && cachedSystemPrompt == render(Contents(disk, read)))
    }

    constructor (disk: Disk, ghost stamp: nat -> int, render: seq<Option<string>> -> string)
      requires Evolves(disk, stamp) && stamp(0) >= UNIX_ONE && forall c :: render(c) != ""
      ensures Valid() && cachedSystemPrompt == ""
    {
      this.disk, this.stamp, this.render := disk, stamp, render;
      cachedSystemPrompt, cachedAt, existedAtCache := "", None, None;
      stat, base, read := [0, 0, 0, 0, 0], 0, [0, 0, 0, 0, 0];
    }

    /** What the check finds of the tracked files and the skills directory at the given moments. */
    ghost predicate Changed(check: Moments, skillsChanged: bool)
      reads this
    {
      cachedAt.None? || existedAtCache.None? || |existedAtCache.value| != TRACKED || skillsChanged
      || exists i | 0 <= i < TRACKED :: FileChanged(existedAtCache.value[i], disk(check[i], i), cachedAt.value)
    }

    method SourceFilesChanged(check: Moments, skillsChanged: bool) returns (changed: bool)
      requires Valid() && cachedSystemPrompt != ""
      ensures changed == Changed(check, skillsChanged)
    {
      if cachedAt.None? {
        return true;
      }
      for i := 0 to TRACKED
        invariant forall k | 0 <= k < i :: !FileChanged(existedAtCache.value[k], disk(check[k], k), cachedAt.value)
      {
        if FileChanged(existedAtCache.value[i], disk(check[i], i), cachedAt.value) {
          return true;
        }
      }
      return skillsChanged;
    }

    method BuildCacheBaseline(at: Moments, skillsMtime: Option<int>, ghost base: nat)
      returns (existed: seq<bool>, maxMtime: int)
      requires Valid() && forall i | 0 <= i < TRACKED :: at[i] <= base
      requires skillsMtime.Some? ==> skillsMtime.value <= stamp(base)
      ensures |existed| == TRACKED && forall i | 0 <= i < TRACKED :: existed[i] == disk(at[i], i).Some?
      ensures maxMtime <= stamp(base)
      ensures NoNewerThan(disk, at, maxMtime) && (skillsMtime.Some? ==> skillsMtime.value <= maxMtime)
      ensures skillsMtime == Some(maxMtime) || Wrote(disk, at, TRACKED, maxMtime)
              || (skillsMtime == None && NoFiles(disk, at, TRACKED) && maxMtime == UNIX_ONE)
    {
      existed := [];
      var newest: Option<int> := None;
      for i := 0 to TRACKED
        invariant |existed| == i && forall k | 0 <= k < i :: existed[k] == disk(at[k], k).Some?
        invariant if newest.Some? then newest.value <= stamp(base) && Wrote(disk, at, i, newest.value)
                  else NoFiles(disk, at, i)
        invariant forall k | 0 <= k < i && disk(at[k], k).Some? ::
          newest.Some? && disk(at[k], k).value.mtime <= newest.value
      {
        var info := disk(at[i], i);
        existed := existed + [info.Some?];
        if info.Some? && (newest.None? || info.value.mtime > newest.value) {
          StampGrows(disk, stamp, at[i], base);
          newest := Some(info.value.mtime);
        }
      }
      if skillsMtime.Some? && (newest.None? || skillsMtime.value > newest.value) {
        newest := skillsMtime;
      }
      StampGrows(disk, stamp, 0, base);
      maxMtime := if newest.None? then UNIX_ONE else newest.value;
    }

    /**
     * A prompt that is not built afresh is the one a fresh build from the files at the check would give,
     * unless a tracked file was created between the baseline and its reading. Files that are as the baseline
     * found them are not read again.
     */
    method BuildSystemPromptWithCache(looks: Looks) returns (prompt: string, fromCache: bool)
      requires Valid() && Staged(looks.stat, looks.base, looks.read)
      requires looks.skillsMtime.Some? ==> looks.skillsMtime.value <= stamp(looks.base)
      requires forall i | 0 <= i < TRACKED :: read[i] <= looks.fast[i] <= looks.slow[i] <= looks.stat[i]
      modifies this
      ensures Valid() && cachedSystemPrompt == prompt != ""
      ensures !fromCache ==> prompt == render(Contents(disk, looks.read)) && read == looks.read && stat == looks.stat
      ensures fromCache ==> unchanged(this)
      ensures old(cachedSystemPrompt) == "" || (looks.fastSkillsChanged && looks.slowSkillsChanged) ==> !fromCache
      ensures old(cachedSystemPrompt) != "" ==>
        fromCache == old(!Changed(looks.fast, looks.fastSkillsChanged) || !Changed(looks.slow, looks.slowSkillsChanged))
      ensures old(cachedSystemPrompt) != "" && !looks.fastSkillsChanged && SameFiles(disk, old(stat), looks.fast) ==>
        fromCache
      ensures fromCache && !CreatedWhileBuilding(disk, stat, read) ==>
        prompt == render(Contents(disk, looks.fast)) || prompt == render(Contents(disk, looks.slow))
    {
      if cachedSystemPrompt != "" {
        var changed := SourceFilesChanged(looks.fast, looks.fastSkillsChanged);
        if !changed {
          UnchangedIsFreshIff(disk, stamp, stat, base, read, looks.fast, cachedAt.value);
          return cachedSystemPrompt, true;
        }
        changed := SourceFilesChanged(looks.slow, looks.slowSkillsChanged);
        if !changed {
          UnchangedIsFreshIff(disk, stamp, stat, base, read, looks.slow, cachedAt.value);
          return cachedSystemPrompt, true;
        }
      }
      var existed, maxMtime := BuildCacheBaseline(looks.stat, looks.skillsMtime, looks.base);
      prompt, fromCache := render(Contents(disk, looks.read)), false;
      cachedSystemPrompt, cachedAt, existedAtCache := prompt, Some(maxMtime), Some(existed);
      stat, base, read := looks.stat, looks.base, looks.read;
    }

    method InvalidateCache()
      requires Valid()
      modifies this
      ensures Valid() && cachedSystemPrompt == ""
    {
      cachedSystemPrompt, cachedAt, existedAtCache := "", None, None;
    }
  }
}
