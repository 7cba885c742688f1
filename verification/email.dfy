/** The e-mail pattern shared by the login form, the login page and the
    registration page: `^[\w-.]+@([\w-]+\.)+[\w-]{2,4}$`. Without the `u` flag,
    `\w` in a JavaScript regular expression is exactly the ASCII class
    `[A-Za-z0-9_]`, and inside the first class `-` stands for itself. */
module EmailPattern {
  import opened Strings

  /** `\w`. */
  predicate WordChar(c: char)
  {
    ('a' <= c <= 'z') || ('A' <= c <= 'Z') || ('0' <= c <= '9') || c == '_'
  }

  /** `[\w-]`: a character of a domain label. */
  predicate LabelChar(c: char)
  {
    WordChar(c) || c == '-'
  }

  /** `[\w-.]`: a character of the local part. */
  predicate LocalChar(c: char)
  {
    LabelChar(c) || c == '.'
  }

  /** `[\w-.]+`. */
  predicate IsLocalPart(p: string)
  {
    |p| > 0 && forall i :: 0 <= i < |p| ==> LocalChar(p[i])
  }

  /** `[\w-]+`. */
  predicate IsLabel(l: string)
  {
    |l| > 0 && forall i :: 0 <= i < |l| ==> LabelChar(l[i])
  }

  /** `[\w-]{2,4}`: the final label. */
  predicate IsTopLabel(l: string)
  {
    2 <= |l| <= 4 && IsLabel(l)
  }

  /** The domain, read structurally: split on '.', at least two labels, every
      label non-empty over `[\w-]`, and the last one 2 to 4 characters long. */
  predicate IsDomain(d: string)
  {
    LabelsOk(Split(d, '.'))
  }

  /** At least two labels, all of them `[\w-]+`, the last a final label. */
  predicate LabelsOk(labels: seq<string>)
  {
    && |labels| >= 2
    && (forall i :: 0 <= i < |labels| ==> IsLabel(labels[i]))
    && IsTopLabel(labels[|labels| - 1])
  }

  /** The address, read structurally: exactly one '@', a non-empty local part
      over `[\w-.]` before it and a domain after it. */
  predicate IsValidEmail(s: string)
  {
    var halves := Split(s, '@');
    |halves| == 2 && IsLocalPart(halves[0]) && IsDomain(halves[1])
  }

  /** `([\w-]+\.)+[\w-]{2,4}` read the way the regular expression is written:
      one label and a dot, followed either by the final label or by another
      such group. */
  ghost predicate GroupsThenTop(d: string)
    decreases |d|
  {
    exists j :: 0 < j < |d| && d[j] == '.' && IsLabel(d[..j])
      && (IsTopLabel(d[j + 1..]) || GroupsThenTop(d[j + 1..]))
  }

  /** The whole regular expression, anchored at both ends. */
  ghost predicate MatchesRegex(s: string)
  {
    exists at :: 0 < at < |s| && s[at] == '@' && IsLocalPart(s[..at]) && GroupsThenTop(s[at + 1..])
  }

  /** A well-formed domain has no '@': it is dots and label characters. */
  lemma DomainHasNoAt(d: string)
    requires IsDomain(d)
    ensures '@' !in d
  {
    var labels := Split(d, '.');
    forall i | 0 <= i < |labels| ensures '@' !in labels[i] {
      LabelHasNoDotOrAt(labels[i]);
    }
    JoinAvoids(labels, '.', '@');
    JoinSplit(d, '.');
  }

  /** The first label of a well-formed domain, and what follows its dot: the
      final label, or again a well-formed domain. */
  lemma DomainHead(d: string) returns (k: nat)
    requires IsDomain(d)
    ensures 0 < k < |d| && d[k] == '.' && IsLabel(d[..k])
    ensures IsTopLabel(d[k + 1..]) || IsDomain(d[k + 1..])
  {
    var labels := Split(d, '.');
    SplitHead(d, '.');
    k := |labels[0]|;
    if |labels| == 2 {
      SplitSingle(d[k + 1..], '.');
    } else {
      LabelsOfTail(labels);
    }
  }

  /** Dropping the first of at least three labels leaves a well-formed label list. */
  lemma LabelsOfTail(labels: seq<string>)
    requires |labels| >= 3 && LabelsOk(labels)
    ensures LabelsOk(labels[1..])
  {
    var tail := labels[1..];
    forall i | 0 <= i < |tail| ensures IsLabel(tail[i]) {
      assert tail[i] == labels[i + 1];
    }
  }

  /** A label run holds no character outside `[\w-]`, so neither a dot nor an '@'. */
  lemma LabelHasNoDotOrAt(l: string)
    requires IsLabel(l)
    ensures '.' !in l && '@' !in l
  {
    forall i | 0 <= i < |l| ensures l[i] != '.' && l[i] != '@' {
      assert LabelChar(l[i]);
    }
  }

  /** A label, a dot, and either the final label or a well-formed domain make a
      well-formed domain. */
  lemma DomainCons(head: string, rest: string)
    requires IsLabel(head)
    requires IsTopLabel(rest) || IsDomain(rest)
    ensures IsDomain(head + ['.'] + rest)
  {
    LabelHasNoDotOrAt(head);
    SplitAtFirst(head, rest, '.');
    if IsTopLabel(rest) {
      LabelHasNoDotOrAt(rest);
      SplitSepFree(rest, '.');
      assert LabelsOk([head, rest]);
    } else {
      LabelsCons(head, Split(rest, '.'));
    }
  }

  /** A label in front of a well-formed label list keeps it well formed. */
  lemma LabelsCons(head: string, tail: seq<string>)
    requires IsLabel(head) && LabelsOk(tail)
    ensures LabelsOk([head] + tail)
  {
    var labels := [head] + tail;
    forall i | 0 <= i < |labels| ensures IsLabel(labels[i]) {
      if i > 0 {
        assert labels[i] == tail[i - 1];
      }
    }
  }

  /** A well-formed domain is matched by the regular-expression group. */
  lemma {:induction false} DomainToGroups(d: string)
    requires IsDomain(d)
    ensures GroupsThenTop(d)
    decreases |d|
  {
    var k := DomainHead(d);
    if !IsTopLabel(d[k + 1..]) {
      DomainToGroups(d[k + 1..]);
    }
  }

  /** A string matched by the regular-expression group is a well-formed domain. */
  lemma {:induction false} GroupsToDomain(d: string)
    requires GroupsThenTop(d)
    ensures IsDomain(d)
    decreases |d|
  {
    var j :| 0 < j < |d| && d[j] == '.' && IsLabel(d[..j])
      && (IsTopLabel(d[j + 1..]) || GroupsThenTop(d[j + 1..]));
    if !IsTopLabel(d[j + 1..]) {
      GroupsToDomain(d[j + 1..]);
    }
    DomainAt(d, j);
  }

  /** `DomainCons` stated on a position of `d` instead of on the pieces. */
  lemma DomainAt(d: string, j: int)
    requires 0 < j < |d| && d[j] == '.' && IsLabel(d[..j])
    requires IsTopLabel(d[j + 1..]) || IsDomain(d[j + 1..])
    ensures IsDomain(d)
  {
    DomainCons(d[..j], d[j + 1..]);
    assert d == d[..j] + ['.'] + d[j + 1..];
  }

  /** The structural domain predicate and the regular-expression group accept
      the same strings. */
  lemma DomainIsGroups(d: string)
    ensures IsDomain(d) <==> GroupsThenTop(d)
  {
    if IsDomain(d) {
      DomainToGroups(d);
    }
    if GroupsThenTop(d) {
      GroupsToDomain(d);
    }
  }

  /** The local part, the '@' and the domain of an accepted address. */
  lemma EmailParts(s: string) returns (at: nat)
    requires IsValidEmail(s)
    ensures 0 < at < |s| && s[at] == '@'
    ensures IsLocalPart(s[..at]) && IsDomain(s[at + 1..])
  {
    var halves := Split(s, '@');
    SplitHead(s, '@');
    at := |halves[0]|;
    JoinSplit(s[at + 1..], '@');
    assert s[at + 1..] == Join(halves[1..], '@') == halves[1];
  }

  /** A local part, an '@' and a domain without '@' make an accepted address. */
  lemma EmailCons(local: string, domain: string)
    requires IsLocalPart(local) && IsDomain(domain) && '@' !in domain
    ensures IsValidEmail(local + ['@'] + domain)
  {
    assert '@' !in local by {
      forall i | 0 <= i < |local| ensures local[i] != '@' {
        assert LocalChar(local[i]);
      }
    }
    SplitAtFirst(local, domain, '@');
    SplitSepFree(domain, '@');
    assert Split(local + ['@'] + domain, '@') == [local, domain];
  }

  /** An accepted address matches the regular expression. */
  lemma ValidMatchesRegex(s: string)
    requires IsValidEmail(s)
    ensures MatchesRegex(s)
  {
    var at := EmailParts(s);
    DomainToGroups(s[at + 1..]);
  }

  /** A string the regular expression matches is an accepted address. */
  lemma RegexMatchIsValid(s: string)
    requires MatchesRegex(s)
    ensures IsValidEmail(s)
  {
    var at :| 0 < at < |s| && s[at] == '@' && IsLocalPart(s[..at]) && GroupsThenTop(s[at + 1..]);
    GroupsToDomain(s[at + 1..]);
    EmailAt(s, at);
  }

  /** `EmailCons` stated on the position of the '@' in `s`. */
  lemma EmailAt(s: string, at: int)
    requires 0 < at < |s| && s[at] == '@'
    requires IsLocalPart(s[..at]) && IsDomain(s[at + 1..])
    ensures IsValidEmail(s)
  {
    DomainHasNoAt(s[at + 1..]);
    EmailCons(s[..at], s[at + 1..]);
    assert s == s[..at] + ['@'] + s[at + 1..];
  }

  /** The structural reading of the address accepts exactly the strings the
      regular expression matches. */
  lemma EmailIsRegex(s: string)
    ensures IsValidEmail(s) <==> MatchesRegex(s)
  {
    if IsValidEmail(s) {
      ValidMatchesRegex(s);
    }
    if MatchesRegex(s) {
      RegexMatchIsValid(s);
    }
  }

  /** An address without '@' is rejected. */
  lemma RejectsWithoutAt(s: string)
    requires '@' !in s
    ensures !IsValidEmail(s)
  {
    SplitSepFree(s, '@');
  }

  /** The address the login tests type for a successful sign-in is accepted. */
  lemma UserExampleAccepted()
    ensures IsValidEmail("user@example.com")
  {
    Accepts("user@example.com");
  }

  /** The address the login tests type for a failed sign-in is accepted. */
  lemma FailExampleAccepted()
    ensures IsValidEmail("fail@example.com")
  {
    Accepts("fail@example.com");
  }

  /** The login tests' malformed address is rejected. */
  lemma InvalidExampleRejected()
    ensures !IsValidEmail("invalid")
  {
    RejectsWithoutAt("invalid");
  }

  /** A four-character local part at `example.com` is accepted. */
  lemma Accepts(s: string)
    requires |s| == 16 && IsLocalPart(s[..4]) && s[4..] == "@example.com"
    ensures IsValidEmail(s)
  {
    var d := s[5..];
    assert s[4] == s[4..][0] == '@';
    assert d == s[4..][1..] == "example.com";
    assert d[..7] == "example" && d[7] == '.' && d[8..] == "com";
    assert GroupsThenTop(d);
    assert MatchesRegex(s);
    EmailIsRegex(s);
  }
}
