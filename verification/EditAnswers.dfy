/** internal/agent/fs/edit.go: when an edit is accepted, and what each refusal means,
    in terms of the matches and newlines of the file itself.
  */
module EditAnswers {
  import opened Bytes
  import opened Lines
  import opened Replace
  import opened EditFile
  import Utf8

  // ------------------------------------------------------------- matches

  ghost predicate Occurs(c: Bytes, pat: Bytes) { exists k: nat :: MatchAt(c, pat, k) }

  /** Nothing matches but at p and across it, where the text replaced is in the way. */
  ghost predicate AloneAt(c: Bytes, pat: Bytes, p: nat) {
    MatchAt(c, pat, p) && forall k: nat :: MatchAt(c, pat, k) ==> p <= k < p + |pat|
  }

  ghost predicate OccursOnce(c: Bytes, pat: Bytes) { exists p: nat :: AloneAt(c, pat, p) }

  lemma {:induction false} CountsNone(c: Bytes, pat: Bytes, i: nat)
    requires pat != [] && i <= |c|
    ensures CountFrom(c, pat, i) == 0 <==> forall k: nat :: i <= k ==> !MatchAt(c, pat, k)
    decreases |c| - i
  {
    if i < |c| && !MatchAt(c, pat, i) {
      CountsNone(c, pat, i + 1);
    }
  }

  lemma NoMatchIff(c: Bytes, pat: Bytes)
    requires pat != []
    ensures Count(c, pat) == 0 <==> !Occurs(c, pat)
  {
    CountsNone(c, pat, 0);
  }

  lemma FirstIsAlone(c: Bytes, pat: Bytes, at: nat)
    requires pat != [] && at == IndexFrom(c, pat, 0)
    ensures Count(c, pat) == 1 <==> AloneAt(c, pat, at)
  {
    CountsFrom(c, pat, 0, at);
    CountsNone(c, pat, at + |pat|);
  }

  /** strings.Count is one exactly when one match has all others across it. */
  lemma OneMatchIff(c: Bytes, pat: Bytes)
    requires pat != []
    ensures Count(c, pat) == 1 <==> OccursOnce(c, pat)
  {
    var at := IndexFrom(c, pat, 0);
    if at >= 0 {
      FirstIsAlone(c, pat, at);
      if p: nat :| AloneAt(c, pat, p) {
        assert MatchAt(c, pat, at);
        assert p == at;
      }
    } else {
      NoMatchIff(c, pat);
    }
  }

  // ------------------------------------------------------------- endings

  predicate HasCrlf(s: Bytes) { exists i: nat :: i < |s| && IsCrlf(s, i) }

  predicate IsBareLf(s: Bytes, i: nat) { i < |s| && s[i] == LF && (i == 0 || s[i - 1] != CR) }

  predicate HasBareLf(s: Bytes) { exists i: nat :: i < |s| && IsBareLf(s, i) }

  lemma {:induction false} CrlfsIff(s: Bytes, n: nat)
    requires n <= |s|
    ensures Crlfs(s, n) > 0 <==> exists i: nat :: i < n && IsCrlf(s, i)
  {
    if n > 0 {
      CrlfsIff(s, n - 1);
      if IsCrlf(s, n - 1) {
        assert Crlfs(s, n) > 0;
      }
    }
  }

  lemma {:induction false} BareLfsIff(s: Bytes, n: nat)
    requires n <= |s|
    ensures NewlinesIn(s, 0, n) >= Crlfs(s, n)
    ensures NewlinesIn(s, 0, n) > Crlfs(s, n) <==> exists i: nat :: i < n && IsBareLf(s, i)
  {
    if n > 0 {
      BareLfsIff(s, n - 1);
      assert s[n - 1] == LF ==> IsCrlf(s, n - 1) || IsBareLf(s, n - 1);
    }
  }

  /** A new string that would bring the other kind of ending into a file that has one. */
  predicate MixesEndings(content: Bytes, newStr: Bytes) {
    || (HasCrlf(content) && !HasBareLf(content) && HasBareLf(newStr))
    || (HasBareLf(content) && !HasCrlf(content) && HasCrlf(newStr))
  }

  lemma KindsOf(s: Bytes)
    ensures Crlfs(s, |s|) > 0 <==> HasCrlf(s)
    ensures BareLfs(s) > 0 <==> HasBareLf(s)
    ensures BareLfs(s) >= 0
  {
    CrlfsIff(s, |s|);
    BareLfsIff(s, |s|);
  }

  lemma EndingsDisagreeIff(content: Bytes, newStr: Bytes)
    ensures EndingsDisagree(content, newStr) <==> MixesEndings(content, newStr)
  {
    KindsOf(content);
    KindsOf(newStr);
    if HasCrlf(newStr) || HasBareLf(newStr) {
      assert LF in newStr;
    }
  }

  // ------------------------------------------------------------- answers

  /** The request itself, and the file, are ones an edit is tried on. */
  predicate Tried(max: nat, content: Bytes, req: Request) {
    req.oldStr != [] && req.oldStr != req.newStr && |content| <= max && Utf8.Valid(content)
  }

  /** What is replaced is settled: the one match, or all of them. */
  ghost predicate Settles(content: Bytes, req: Request) {
    req.oldStr != [] && Occurs(content, req.oldStr) && (req.all || OccursOnce(content, req.oldStr))
  }

  lemma SettlesIff(content: Bytes, req: Request)
    requires req.oldStr != []
    ensures Settles(content, req) <==> Count(content, req.oldStr) == 1 || (req.all && Count(content, req.oldStr) > 1)
  {
    NoMatchIff(content, req.oldStr);
    OneMatchIff(content, req.oldStr);
  }

  /** An edit is accepted exactly when its strings differ and the old one is not empty,
      the file is text within the limit, the old string occurs in it, and nowhere else
      unless all are to be replaced, the new string keeps the file's line endings, and
      the result is within the limit too. */
  lemma AcceptedIff(max: nat, content: Bytes, req: Request)
    ensures Edit(max, content, req).Edited? <==>
            && Tried(max, content, req) && Settles(content, req) && !MixesEndings(content, req.newStr)
            && |Replaced(content, req.oldStr, req.newStr, req.all)| <= max
    ensures Edit(max, content, req).Edited? && !req.all ==> Count(content, req.oldStr) == 1 && OccursOnce(content, req.oldStr)
  {
    EndingsDisagreeIff(content, req.newStr);
    if Tried(max, content, req) {
      SettlesIff(content, req);
      OneMatchIff(content, req.oldStr);
      if Count(content, req.oldStr) > 0 {
        ResultSizeIsExact(content, req);
      }
    }
  }

  /** Each refusal is the answer exactly when what it names is so and nothing checked
      before it was. */
  lemma RefusedIff(max: nat, content: Bytes, req: Request, n: int)
    ensures var r := Edit(max, content, req);
            && (r == Refused(EmptyOldString) <==> req.oldStr == [])
            && (r == Refused(IdenticalStrings) <==> req.oldStr != [] && req.oldStr == req.newStr)
            && (r == Refused(FileTooLarge) <==> req.oldStr != [] && req.oldStr != req.newStr && |content| > max)
            && (r == Refused(NotUtf8) <==>
                  req.oldStr != [] && req.oldStr != req.newStr && |content| <= max && !Utf8.Valid(content))
            && (r == Refused(NoMatch) <==> Tried(max, content, req) && !Occurs(content, req.oldStr))
            && (n >= 0 ==> (r == Refused(Ambiguous(n)) <==>
                  && Tried(max, content, req) && Occurs(content, req.oldStr) && !req.all
                  && !OccursOnce(content, req.oldStr) && n == Count(content, req.oldStr)))
            && (r == Refused(MixedLineEndings) <==>
                  Tried(max, content, req) && Settles(content, req) && MixesEndings(content, req.newStr))
            && (r == Refused(ResultTooLarge(n)) <==>
                  && Tried(max, content, req) && Settles(content, req) && !MixesEndings(content, req.newStr)
                  && n == |Replaced(content, req.oldStr, req.newStr, req.all)| > max)
  {
    EndingsDisagreeIff(content, req.newStr);
    if Tried(max, content, req) {
      SettlesIff(content, req);
      NoMatchIff(content, req.oldStr);
      OneMatchIff(content, req.oldStr);
      if Count(content, req.oldStr) > 0 {
        ResultSizeIsExact(content, req);
      }
    }
  }
}
