/** Queue settings for one worker type, and the derivation of the queue
    name from the worker's class name: `::` becomes `/`, camel-case
    boundaries get an underscore, `-` becomes `_` and the result is
    lower-cased. */
module QueueConfigs {
  import opened Strings

  datatype QueueConfig = QueueConfig(workerName: string, routingKeys: seq<string>, autoDelete: bool)

  /** No two adjacent colons. */
  predicate NoDoubleColon(s: string) {
    forall i :: 0 <= i < |s| - 1 ==> !(s[i] == ':' && s[i + 1] == ':')
  }

  /** `gsub(/::/, '/')`: every `::`, scanning left to right, becomes `/`. */
  function ColonsToSlashes(s: string): (r: string)
    decreases |s|
  {
    if |s| < 2 then s
    else if s[0] == ':' && s[1] == ':' then "/" + ColonsToSlashes(s[2..])
    else [s[0]] + ColonsToSlashes(s[1..])
  }

  /** Length of the run of capitals `s` starts with. */
  function UpperRun(s: string): (n: nat)
    ensures n <= |s|
    ensures n == |s| || !IsUpper(s[n])
  {
    if s == [] || !IsUpper(s[0]) then 0 else 1 + UpperRun(s[1..])
  }

  lemma {:induction false} UpperRunIsUpper(s: string)
    ensures forall k :: 0 <= k < UpperRun(s) ==> IsUpper(s[k])
    decreases |s|
  {
    if s != [] && IsUpper(s[0]) {
      UpperRunIsUpper(s[1..]);
      assert forall k :: 1 <= k < UpperRun(s) ==> s[k] == s[1..][k - 1];
    }
  }

  /** Length of the match of `([A-Z]+)([A-Z][a-z])` that starts at the
      front of `s`, or 0 when none does. Since `[A-Z]+` is greedy and then
      gives back one capital, a match exists exactly when the run of
      capitals has length n >= 2 and a lower-case letter follows it; the
      match is then the run plus that letter. */
  function AcronymMatch(s: string): (m: nat)
    ensures m <= |s|
    ensures m == 0 || 3 <= m
  {
    var n := UpperRun(s);
    if 2 <= n < |s| && IsLower(s[n]) then n + 1 else 0
  }

  /** `'\1_\2'` on a match: an underscore before the last capital. */
  function AcronymRewrite(p: string): (r: string)
    requires |p| >= 2
  {
    p[..|p| - 2] + "_" + p[|p| - 2..]
  }

  /** `gsub(/([A-Z]+)([A-Z][a-z])/, '\1_\2')`: scanning left to right, each
      match is rewritten and the scan resumes after it; where no match
      starts, the character is kept and the scan moves on by one. */
  function SplitAcronyms(s: string): (r: string)
    decreases |s|
  {
    if s == [] then []
    else
      var m := AcronymMatch(s);
      if m > 0 then AcronymRewrite(s[..m]) + SplitAcronyms(s[m..])
      else [s[0]] + SplitAcronyms(s[1..])
  }

  /** `gsub(/([a-z\d])([A-Z])/, '\1_\2')`: an underscore between a
      lower-case letter or digit and the capital that follows it. */
  function SplitWords(s: string): (r: string)
    ensures s != [] ==> r != [] && r[0] == s[0]
    decreases |s|
  {
    if |s| < 2 then s
    else if (IsLower(s[0]) || IsDigit(s[0])) && IsUpper(s[1]) then [s[0], '_', s[1]] + SplitWords(s[2..])
    else [s[0]] + SplitWords(s[1..])
  }

  /** The last two rewrites: `tr('-', '_')`, then `downcase`. */
  function Finish(t: string): string {
    Downcase(ReplaceChar(t, '-', '_'))
  }

  /** `QueueConfig#queue_name` of a worker name. */
  function QueueName(workerName: string): string {
    Finish(SplitWords(SplitAcronyms(ColonsToSlashes(workerName))))
  }

  /** The queue name has no capital and no `-`. */
  lemma QueueNameAlphabet(w: string)
    ensures NoUpper(QueueName(w))
    ensures NoChar(QueueName(w), '-')
  {
  }

  /** The queue name of a configuration (memoised in the source; a function
      of `workerName` here). */
  function ConfigQueueName(c: QueueConfig): string {
    QueueName(c.workerName)
  }

  // ---------------------------------------------------------------------
  // The rewrites work piece by piece

  /** The word-boundary rule looks at two adjacent characters; when the
      characters on either side of the cut do not form a match, the rewrite
      of `a + b` is that of `a` followed by that of `b`. */
  lemma {:induction false} SplitWordsConcat(a: string, b: string)
    requires a == [] || b == [] || !((IsLower(a[|a| - 1]) || IsDigit(a[|a| - 1])) && IsUpper(b[0]))
    ensures SplitWords(a + b) == SplitWords(a) + SplitWords(b)
    decreases |a|
  {
    var s := a + b;
    if a == [] {
      assert s == b;
    } else if b == [] {
      assert s == a;
    } else if |a| == 1 {
      assert s[1..] == b;
    } else if (IsLower(a[0]) || IsDigit(a[0])) && IsUpper(a[1]) {
      assert s[0] == a[0] && s[1] == a[1];
      assert s[2..] == a[2..] + b;
      SplitWordsConcat(a[2..], b);
      AppendAssoc([a[0], '_', a[1]], SplitWords(a[2..]), SplitWords(b));
    } else {
      assert s[0] == a[0] && s[1] == a[1];
      assert s[1..] == a[1..] + b;
      SplitWordsConcat(a[1..], b);
      AppendAssoc([a[0]], SplitWords(a[1..]), SplitWords(b));
    }
  }

  // ---------------------------------------------------------------------
  // Where each rewrite changes nothing, and where it inserts `_`

  /** No capital is directly followed by another. */
  predicate NoAdjacentCapitals(s: string) {
    forall i :: 0 <= i < |s| - 1 ==> !(IsUpper(s[i]) && IsUpper(s[i + 1]))
  }

  /** No lower-case letter or digit is directly followed by a capital. */
  predicate NoWordBoundary(s: string) {
    forall i :: 0 <= i < |s| - 1 ==> !((IsLower(s[i]) || IsDigit(s[i])) && IsUpper(s[i + 1]))
  }

  lemma {:induction false} ColonsToSlashesIdentity(s: string)
    requires NoDoubleColon(s)
    ensures ColonsToSlashes(s) == s
    decreases |s|
  {
    if |s| >= 2 {
      assert NoDoubleColon(s[1..]);
      ColonsToSlashesIdentity(s[1..]);
      assert s == [s[0]] + s[1..];
    }
  }

  /** Without two capitals in a row the acronym rule never matches. */
  lemma {:induction false} SplitAcronymsIdentity(s: string)
    requires NoAdjacentCapitals(s)
    ensures SplitAcronyms(s) == s
    decreases |s|
  {
    if s != [] {
      UpperRunIsUpper(s);
      assert UpperRun(s) < 2;
      assert NoAdjacentCapitals(s[1..]);
      SplitAcronymsIdentity(s[1..]);
      assert s == [s[0]] + s[1..];
    }
  }

  /** Without a lower-case letter or digit before a capital the word rule
      never matches. */
  lemma {:induction false} SplitWordsIdentity(s: string)
    requires NoWordBoundary(s)
    ensures SplitWords(s) == s
    decreases |s|
  {
    if |s| >= 2 {
      assert NoWordBoundary(s[1..]);
      SplitWordsIdentity(s[1..]);
      assert s == [s[0]] + s[1..];
    }
  }

  /** An underscore goes between a lower-case letter or digit and the
      capital after it: the word rule on `a + b`, where `a` ends in such a
      character and `b` starts with a capital, rewrites both sides on their
      own and puts `_` between them. */
  lemma {:induction false} SplitWordsBoundary(a: string, b: string)
    requires a != [] && (IsLower(a[|a| - 1]) || IsDigit(a[|a| - 1]))
    requires b != [] && IsUpper(b[0])
    ensures SplitWords(a + b) == SplitWords(a) + "_" + SplitWords(b)
    decreases |a|
  {
    var s := a + b;
    if |a| == 1 {
      assert s[2..] == b[1..];
      assert SplitWords(b) == [b[0]] + SplitWords(b[1..]) by {
        if |b| >= 2 {
          assert !(IsLower(b[0]) || IsDigit(b[0]));
        }
      }
    } else {
      var k := if (IsLower(a[0]) || IsDigit(a[0])) && IsUpper(a[1]) then 2 else 1;
      var x := if k == 2 then [a[0], '_', a[1]] else [a[0]];
      assert s[k..] == a[k..] + b;
      SplitWordsBoundary(a[k..], b);
      var y := SplitWords(a[k..]);
      assert SplitWords(s) == x + ((y + "_") + SplitWords(b));
      AppendAssoc(x, y + "_", SplitWords(b));
      AppendAssoc(x, y, "_");
    }
  }

  lemma ReplaceCharAbsent(s: string, from: char, to: char)
    requires NoChar(s, from)
    ensures ReplaceChar(s, from, to) == s
  {
  }

  lemma DowncaseNoUpper(s: string)
    requires NoUpper(s)
    ensures Downcase(s) == s
  {
  }

  // ---------------------------------------------------------------------
  // Camel case becomes snake case

  /** A capitalised word: a capital, then at least one lower-case letter
      or digit and nothing else. */
  predicate Capitalised(w: string) {
    |w| >= 2 && IsUpper(w[0]) && forall i :: 1 <= i < |w| ==> IsLower(w[i]) || IsDigit(w[i])
  }

  /** A non-empty run of capitals, such as an acronym. */
  predicate AllCapitals(w: string) {
    w != [] && forall i :: 0 <= i < |w| ==> IsUpper(w[i])
  }

  lemma FinishConcat(a: string, b: string)
    ensures Finish(a + b) == Finish(a) + Finish(b)
  {
  }

  lemma FinishNoHyphen(t: string)
    requires NoChar(t, '-')
    ensures Finish(t) == Downcase(t)
  {
    ReplaceCharAbsent(t, '-', '_');
  }

  lemma FinishUnderscore(a: string, b: string)
    requires NoChar(a, '-') && NoChar(b, '-')
    ensures Finish(a + "_" + b) == Downcase(a) + "_" + Downcase(b)
  {
    FinishConcat(a + "_", b);
    FinishConcat(a, "_");
    FinishNoHyphen(a);
    FinishNoHyphen(b);
  }

  /** A single capitalised word is only lower-cased. */
  lemma CapitalisedName(w: string)
    requires Capitalised(w)
    ensures QueueName(w) == Downcase(w)
  {
    assert NoDoubleColon(w);
    ColonsToSlashesIdentity(w);
    assert NoAdjacentCapitals(w);
    SplitAcronymsIdentity(w);
    assert NoWordBoundary(w);
    SplitWordsIdentity(w);
    FinishNoHyphen(w);
  }

  lemma TwoWordsSplit(a: string, b: string)
    requires Capitalised(a) && Capitalised(b)
    ensures SplitWords(SplitAcronyms(ColonsToSlashes(a + b))) == a + "_" + b
  {
    var w := a + b;
    assert NoDoubleColon(w) by {
      assert forall i :: 0 <= i < |w| ==> w[i] != ':';
    }
    ColonsToSlashesIdentity(w);
    assert NoAdjacentCapitals(w) by {
      forall i | 0 <= i < |w| - 1
        ensures !(IsUpper(w[i]) && IsUpper(w[i + 1]))
      {
        if i < |a| - 1 {
          assert w[i + 1] == a[i + 1];
        } else if i == |a| - 1 {
          assert w[i] == a[i];
        } else {
          assert w[i + 1] == b[i + 1 - |a|];
        }
      }
    }
    SplitAcronymsIdentity(w);
    SplitWordsBoundary(a, b);
    assert NoWordBoundary(a) && NoWordBoundary(b);
    SplitWordsIdentity(a);
    SplitWordsIdentity(b);
  }

  /** Two capitalised words in camel case come out in snake case. */
  lemma TwoWordsName(a: string, b: string)
    requires Capitalised(a) && Capitalised(b)
    ensures QueueName(a + b) == Downcase(a) + "_" + Downcase(b)
  {
    TwoWordsSplit(a, b);
    assert NoChar(a, '-') && NoChar(b, '-');
    FinishUnderscore(a, b);
  }

  lemma AcronymWordAcronyms(a: string, b: string)
    requires AllCapitals(a) && Capitalised(b) && IsLower(b[1])
    ensures SplitAcronyms(a + b) == a + "_" + b
  {
    var w := a + b;
    UpperRunOfCapitals(a, b);
    assert w[|a| + 1] == b[1];
    var m := |a| + 2;
    assert AcronymMatch(w) == m;
    assert w[..m] == a + b[..2];
    assert w[..m][..|a|] == a && w[..m][|a|..] == b[..2];
    assert AcronymRewrite(w[..m]) == a + "_" + b[..2];
    assert w[m..] == b[2..];
    assert NoAdjacentCapitals(b[2..]);
    SplitAcronymsIdentity(b[2..]);
    assert SplitAcronyms(w) == (a + "_" + b[..2]) + b[2..];
    AppendAssoc(a + "_", b[..2], b[2..]);
    assert b[..2] + b[2..] == b;
  }

  lemma AcronymWordSplit(a: string, b: string)
    requires AllCapitals(a) && Capitalised(b) && IsLower(b[1])
    ensures SplitWords(SplitAcronyms(ColonsToSlashes(a + b))) == a + "_" + b
  {
    var w := a + b;
    assert NoDoubleColon(w) by {
      assert forall i :: 0 <= i < |w| ==> w[i] != ':';
    }
    ColonsToSlashesIdentity(w);
    AcronymWordAcronyms(a, b);
    var t := a + "_" + b;
    assert NoWordBoundary(t) by {
      forall i | 0 <= i < |t| - 1
        ensures !((IsLower(t[i]) || IsDigit(t[i])) && IsUpper(t[i + 1]))
      {
        if i < |a| {
          assert t[i] == a[i];
        } else {
          assert t[i + 1] == b[i - |a|];
        }
      }
    }
    SplitWordsIdentity(t);
  }

  /** An acronym before a capitalised word is split off before the word's
      capital: `HTTPServer` gives `http_server`. */
  lemma AcronymWordName(a: string, b: string)
    requires AllCapitals(a) && Capitalised(b) && IsLower(b[1])
    ensures QueueName(a + b) == Downcase(a) + "_" + Downcase(b)
  {
    AcronymWordSplit(a, b);
    assert NoChar(a, '-') && NoChar(b, '-');
    FinishUnderscore(a, b);
  }

  lemma {:induction false} UpperRunOfCapitals(a: string, b: string)
    requires AllCapitals(a) && Capitalised(b)
    ensures UpperRun(a + b) == |a| + 1
    decreases |a|
  {
    var w := a + b;
    if |a| == 1 {
      assert w[1..] == b;
      assert UpperRun(b) == 1 by {
        assert b[1..][0] == b[1];
      }
    } else {
      assert w[1..] == a[1..] + b;
      UpperRunOfCapitals(a[1..], b);
    }
  }

  /** A namespace separator after a capitalised word becomes `/`, and
      nothing is inserted beside it: the two sides are rewritten on their
      own. */
  lemma NamespacedName(ns: string, w: string)
    requires Capitalised(ns)
    ensures QueueName(ns + "::" + w) == QueueName(ns) + "/" + QueueName(w)
  {
    NamespacedSplit(ns, w);
    CapitalisedName(ns);
    FinishConcat(ns + "/", SplitWords(SplitAcronyms(ColonsToSlashes(w))));
    FinishConcat(ns, "/");
    assert NoChar(ns, '-');
    FinishNoHyphen(ns);
  }

  lemma NamespacedSplit(ns: string, w: string)
    requires Capitalised(ns)
    ensures SplitWords(SplitAcronyms(ColonsToSlashes(ns + "::" + w)))
         == ns + "/" + SplitWords(SplitAcronyms(ColonsToSlashes(w)))
  {
    var rest := ColonsToSlashes(w);
    assert NoChar(ns, ':');
    assert ns + "::" + w == ns + ("::" + w);
    ColonsToSlashesNoColon(ns, "::" + w);
    assert ("::" + w)[2..] == w;
    var p := ns + "/";
    assert ColonsToSlashes(ns + "::" + w) == p + rest;
    assert NoAdjacentCapitals(p) by {
      forall i | 0 <= i < |p| - 1
        ensures !(IsUpper(p[i]) && IsUpper(p[i + 1]))
      {
        assert i + 1 == |ns| || p[i + 1] == ns[i + 1];
      }
    }
    SplitAcronymsPrefix(p, rest);
    var y := SplitAcronyms(rest);
    SplitWordsConcat(p, y);
    assert NoWordBoundary(p) by {
      forall i | 0 <= i < |p| - 1
        ensures !((IsLower(p[i]) || IsDigit(p[i])) && IsUpper(p[i + 1]))
      {
        assert i + 1 == |ns| || p[i + 1] == ns[i + 1];
      }
    }
    SplitWordsIdentity(p);
  }

  /** A prefix with no two capitals in a row that does not end in a
      capital is kept as it is: no acronym match starts in it, and none
      reaches across its end. */
  lemma {:induction false} SplitAcronymsPrefix(p: string, b: string)
    requires p != [] && !IsUpper(p[|p| - 1]) && NoAdjacentCapitals(p)
    ensures SplitAcronyms(p + b) == p + SplitAcronyms(b)
    decreases |p|
  {
    var s := p + b;
    assert UpperRun(s) < 2 by {
      assert s[0] == p[0];
      if |p| >= 2 && IsUpper(s[0]) {
        assert s[1..][0] == p[1];
      }
    }
    assert s[1..] == p[1..] + b;
    if |p| > 1 {
      assert NoAdjacentCapitals(p[1..]);
      SplitAcronymsPrefix(p[1..], b);
    } else {
      assert s[1..] == b;
    }
    AppendAssoc([p[0]], p[1..], SplitAcronyms(b));
    assert p == [p[0]] + p[1..];
  }

  // ---------------------------------------------------------------------
  // Examples

  /** A capitalised namespace and a camel-case class name in it. */
  lemma NamespacedTwoWords(ns: string, a: string, b: string)
    requires Capitalised(ns) && Capitalised(a) && Capitalised(b)
    ensures QueueName(ns + "::" + (a + b)) == Downcase(ns) + "/" + (Downcase(a) + "_" + Downcase(b))
  {
    NamespacedName(ns, a + b);
    CapitalisedName(ns);
    TwoWordsName(a, b);
  }

  // Each example is first proved about its words, then about the literal
  // name they spell.

  lemma ExampleWorkerWords(a: string, b: string)
    requires a == "Example" && b == "Worker"
    ensures QueueName(a + b) == "example_worker"
  {
    TwoWordsName(a, b);
    assert Downcase(a) == "example";
    assert Downcase(b) == "worker";
  }

  /** The example in the source's documentation. */
  lemma ExampleWorkerName()
    ensures QueueName("ExampleWorker") == "example_worker"
  {
    ExampleWorkerWords("Example", "Worker");
    assert "Example" + "Worker" == "ExampleWorker";
  }

  lemma NestedWorkerWords(a: string, b: string, c: string)
    requires a == "My" && b == "Nested" && c == "Worker"
    ensures QueueName(a + "::" + (b + c)) == "my/nested_worker"
  {
    NamespacedTwoWords(a, b, c);
    assert Downcase(a) == "my";
    assert Downcase(b) == "nested";
    assert Downcase(c) == "worker";
  }

  lemma NestedWorkerName()
    ensures QueueName("My::NestedWorker") == "my/nested_worker"
  {
    NestedWorkerWords("My", "Nested", "Worker");
    assert "My" + "::" + ("Nested" + "Worker") == "My::NestedWorker";
  }

  lemma AcronymWords(a: string, b: string)
    requires a == "HTTP" && b == "Server"
    ensures QueueName(a + b) == "http_server"
  {
    AcronymWordName(a, b);
    assert Downcase(a) == "http";
    assert Downcase(b) == "server";
  }

  lemma AcronymName()
    ensures QueueName("HTTPServer") == "http_server"
  {
    AcronymWords("HTTP", "Server");
    assert "HTTP" + "Server" == "HTTPServer";
  }

  lemma EmptyName()
    ensures QueueName("") == ""
  {
  }

  // ---------------------------------------------------------------------
  // Every `::` becomes `/`

  lemma {:induction false} ColonsToSlashesNoColon(a: string, rest: string)
    requires NoChar(a, ':')
    ensures ColonsToSlashes(a + rest) == a + ColonsToSlashes(rest)
    decreases |a|
  {
    if a != [] {
      var s := a + rest;
      assert s[0] == a[0] != ':';
      if |s| < 2 {
        assert rest == [] && s == a;
      } else {
        assert s[1..] == a[1..] + rest;
        assert ColonsToSlashes(s) == [a[0]] + ColonsToSlashes(a[1..] + rest);
        ColonsToSlashesNoColon(a[1..], rest);
        assert ColonsToSlashes(s) == [a[0]] + (a[1..] + ColonsToSlashes(rest));
        assert a == [a[0]] + a[1..];
      }
    } else {
      assert a + rest == rest;
    }
  }

  /** A name made of colon-free segments joined by `::` comes out with the
      same segments joined by `/`. */
  lemma {:induction false} ColonsBecomeSlashes(segments: seq<string>)
    requires |segments| >= 1
    requires forall k :: 0 <= k < |segments| ==> NoChar(segments[k], ':')
    ensures ColonsToSlashes(Join(segments, "::")) == Join(segments, "/")
  {
    if |segments| == 1 {
      ColonsToSlashesNoColon(segments[0], "");
      assert segments[0] + "" == segments[0];
    } else {
      var tail := Join(segments[1..], "::");
      ColonsBecomeSlashes(segments[1..]);
      assert Join(segments, "::") == segments[0] + ("::" + tail);
      ColonsToSlashesNoColon(segments[0], "::" + tail);
      assert ("::" + tail)[2..] == tail;
    }
  }

  // ---------------------------------------------------------------------
  // Idempotence

  lemma NoDoubleColonConcat(a: string, b: string)
    requires NoDoubleColon(a) && NoDoubleColon(b)
    requires a == [] || b == [] || a[|a| - 1] != ':' || b[0] != ':'
    ensures NoDoubleColon(a + b)
  {
    var s := a + b;
    forall i | 0 <= i < |s| - 1
      ensures !(s[i] == ':' && s[i + 1] == ':')
    {
      if i < |a| - 1 {
        assert s[i] == a[i] && s[i + 1] == a[i + 1];
      } else if i == |a| - 1 {
        assert s[i] == a[|a| - 1] && s[i + 1] == b[0];
      } else {
        assert s[i] == b[i - |a|] && s[i + 1] == b[i - |a| + 1];
      }
    }
  }

  lemma {:induction false} ColonsToSlashesNoDoubleColon(s: string)
    ensures NoDoubleColon(ColonsToSlashes(s))
    ensures s != [] && s[0] != ':' ==> ColonsToSlashes(s) != [] && ColonsToSlashes(s)[0] == s[0]
    decreases |s|
  {
    if |s| < 2 {
    } else if s[0] == ':' && s[1] == ':' {
      ColonsToSlashesNoDoubleColon(s[2..]);
      NoDoubleColonConcat("/", ColonsToSlashes(s[2..]));
    } else {
      var rest := ColonsToSlashes(s[1..]);
      ColonsToSlashesNoDoubleColon(s[1..]);
      if s[0] == ':' {
        assert s[1] != ':';
        assert rest != [] && rest[0] == s[1];
      }
      NoDoubleColonConcat([s[0]], rest);
    }
  }

  lemma {:induction false} SplitAcronymsKeepsNoDoubleColon(s: string)
    requires NoDoubleColon(s)
    ensures NoDoubleColon(SplitAcronyms(s))
    decreases |s|
  {
    if s != [] {
      var m := AcronymMatch(s);
      if m > 0 {
        var piece := AcronymRewrite(s[..m]);
        UpperRunIsUpper(s);
        assert forall k :: 0 <= k < m ==> s[k] != ':';
        assert forall k :: 0 <= k < |piece| ==> piece[k] != ':';
        assert NoDoubleColon(s[m..]);
        SplitAcronymsKeepsNoDoubleColon(s[m..]);
        NoDoubleColonConcat(piece, SplitAcronyms(s[m..]));
      } else {
        assert NoDoubleColon(s[1..]);
        SplitAcronymsKeepsNoDoubleColon(s[1..]);
        NoDoubleColonConcat([s[0]], SplitAcronyms(s[1..]));
      }
    }
  }

  lemma {:induction false} SplitWordsKeepsNoDoubleColon(s: string)
    requires NoDoubleColon(s)
    ensures NoDoubleColon(SplitWords(s))
    decreases |s|
  {
    if |s| >= 2 {
      if (IsLower(s[0]) || IsDigit(s[0])) && IsUpper(s[1]) {
        assert NoDoubleColon(s[2..]);
        SplitWordsKeepsNoDoubleColon(s[2..]);
        NoDoubleColonConcat([s[0], '_', s[1]], SplitWords(s[2..]));
      } else {
        assert NoDoubleColon(s[1..]);
        SplitWordsKeepsNoDoubleColon(s[1..]);
        NoDoubleColonConcat([s[0]], SplitWords(s[1..]));
      }
    }
  }

  lemma QueueNameNoDoubleColon(w: string)
    ensures NoDoubleColon(QueueName(w))
  {
    var s1 := ColonsToSlashes(w);
    ColonsToSlashesNoDoubleColon(w);
    var s2 := SplitAcronyms(s1);
    SplitAcronymsKeepsNoDoubleColon(s1);
    var s3 := SplitWords(s2);
    SplitWordsKeepsNoDoubleColon(s2);
    var s4 := ReplaceChar(s3, '-', '_');
    var s5 := Downcase(s4);
    assert forall i :: 0 <= i < |s5| ==> (s5[i] == ':' <==> s3[i] == ':');
  }

  /** Deriving a queue name from a queue name changes nothing. */
  lemma QueueNameIdempotent(w: string)
    ensures QueueName(QueueName(w)) == QueueName(w)
  {
    var q := QueueName(w);
    QueueNameAlphabet(w);
    QueueNameNoDoubleColon(w);
    ColonsToSlashesIdentity(q);
    SplitAcronymsIdentity(q);
    SplitWordsIdentity(q);
    ReplaceCharAbsent(q, '-', '_');
    DowncaseNoUpper(q);
  }
}
