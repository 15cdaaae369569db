/** One pass of the database log watcher (the body of the ticker loop of
    WatchLogs in apps/watchdog/internal/monitor/logwatch.go). */
module LogWatch {

  import opened Wrappers
  import opened Strings
  import opened Remote

  const ContainerName := "supabase-db"

  /** The corruption patterns, in the order they are reported (line 13). */
  const Patterns := ["invalid record length", "could not read block", "wal corruption",
                     "database files are incompatible", "FATAL", "PANIC"]

  /** A lowered log that shows a shutdown or start-up in progress (line 28). */
  predicate Noisy(logStr: string) {
    Contains(logStr, "terminating connection") || Contains(logStr, "database system is starting up")
  }

  /** The patterns that occur, ignoring case, in a log that is not noisy,
      in pattern order (lines 22-33); `logStr` is the lowered log. */
  function Matching(logStr: string, patterns: seq<string>): seq<string>
    decreases |patterns|
  {
    if |patterns| == 0 then []
    else
      var rest := Matching(logStr, patterns[..|patterns| - 1]);
      var p := patterns[|patterns| - 1];
      if Contains(logStr, ToLower(p)) && !Noisy(logStr) then rest + [p] else rest
  }

  /** A pattern is reported exactly when it is one of the patterns, its
      lowered form occurs in the lowered log, and the log is not noisy. */
  lemma {:induction false} MatchingMembers(logStr: string, patterns: seq<string>, p: string)
    ensures p in Matching(logStr, patterns)
            <==> p in patterns && Contains(logStr, ToLower(p)) && !Noisy(logStr)
    decreases |patterns|
  {
    if |patterns| > 0 {
      var init := patterns[..|patterns| - 1];
      MatchingMembers(logStr, init, p);
      assert patterns == init + [patterns[|patterns| - 1]];
    }
  }

  /** A pattern that occurs in the log as written, in any case, is reported
      unless the log is noisy. */
  lemma WrittenPatternReported(out: string, patterns: seq<string>, p: string)
    requires p in patterns && Contains(out, p) && !Noisy(ToLower(out))
    ensures p in Matching(ToLower(out), patterns)
  {
    ContainsLower(out, p);
    MatchingMembers(ToLower(out), patterns, p);
  }

  /** A noisy log reports nothing, whatever patterns it also contains. */
  lemma {:induction false} NoisyReportsNothing(logStr: string, patterns: seq<string>)
    requires Noisy(logStr)
    ensures Matching(logStr, patterns) == []
    decreases |patterns|
  {
    if |patterns| > 0 {
      NoisyReportsNothing(logStr, patterns[..|patterns| - 1]);
    }
  }

  /** Matching works pattern by pattern: the matches of earlier patterns
      come first, in order. */
  lemma {:induction false} MatchingAppend(logStr: string, a: seq<string>, b: seq<string>)
    ensures Matching(logStr, a + b) == Matching(logStr, a) + Matching(logStr, b)
    decreases |b|
  {
    if |b| == 0 {
      assert a + b == a;
    } else {
      var init := b[..|b| - 1];
      MatchingAppend(logStr, a, init);
      assert (a + b)[..|a + b| - 1] == a + init;
      assert (a + b)[|a + b| - 1] == b[|b| - 1];
    }
  }

  predicate Distinct(s: seq<string>) {
    forall i, j :: 0 <= i < j < |s| ==> s[i] != s[j]
  }

  /** No pattern is reported twice when no pattern is listed twice. */
  lemma {:induction false} MatchingDistinct(logStr: string, patterns: seq<string>)
    requires Distinct(patterns)
    ensures Distinct(Matching(logStr, patterns))
    decreases |patterns|
  {
    if |patterns| > 0 {
      var init := patterns[..|patterns| - 1];
      var p := patterns[|patterns| - 1];
      MatchingDistinct(logStr, init);
      MatchingMembers(logStr, init, p);
      assert p !in init;
    }
  }

  lemma PatternsDistinct()
    ensures Distinct(Patterns)
  {
  }

  /** Lines 22-33: the loop over the patterns, in the source's own shape. */
  method MatchPatterns(out: string, patterns: seq<string>) returns (matches: seq<string>)
    ensures matches == Matching(ToLower(out), patterns)
  {
    var logStr := ToLower(out);
    matches := [];
    var i := 0;
    while i < |patterns|
      invariant 0 <= i <= |patterns|
      invariant matches == Matching(logStr, patterns[..i])
    {
      var p := patterns[i];
      assert patterns[..i + 1][..i] == patterns[..i];
      if Contains(logStr, ToLower(p)) {
        if Contains(logStr, "terminating connection") || Contains(logStr, "database system is starting up") {
          i := i + 1;
          continue;
        }
        matches := matches + [p];
      }
      i := i + 1;
    }
    assert patterns[..i] == patterns;
  }

  /** Something is reported exactly when the log is not noisy and some
      pattern occurs in it, ignoring case (line 35). */
  lemma AlertIffSomePattern(logStr: string, patterns: seq<string>)
    ensures |Matching(logStr, patterns)| > 0
            <==> !Noisy(logStr) && exists p :: p in patterns && Contains(logStr, ToLower(p))
  {
    var m := Matching(logStr, patterns);
    if |m| > 0 {
      MatchingMembers(logStr, patterns, m[0]);
    }
    if !Noisy(logStr) && exists p :: p in patterns && Contains(logStr, ToLower(p)) {
      var p :| p in patterns && Contains(logStr, ToLower(p));
      MatchingMembers(logStr, patterns, p);
    }
  }

  /** One tick (lines 17-37). `out` is the output of `docker logs`, None when
      the command fails; the tick then sends nothing. Otherwise one alert
      goes out exactly when some pattern matched, naming them all. */
  method CheckLogs(notifier: Notifier, out: Option<string>)
    modifies notifier
    ensures out.None? ==> notifier.outbox == old(notifier.outbox)
    ensures out.Some? ==>
              var m := Matching(ToLower(out.value), Patterns);
              notifier.outbox == old(notifier.outbox) + (if |m| > 0 then [CorruptionAlert(ContainerName, m)] else [])
  {
    if out.None? {
      return;
    }
    var matches := MatchPatterns(out.value, Patterns);
    if |matches| > 0 {
      notifier.Send(CorruptionAlert(ContainerName, matches));
    }
  }
}
