/**
 The waitlist sign-up endpoint: `POST` with a JSON body whose `email` member must be a
 non-empty string matching `^[^\s@]+@[^\s@]+\.[^\s@]+$`. The handler answers with an
 `ApiResponse` record (`success` plus exactly one of `error` or `message`) and an HTTP
 status.
 */
module Waitlist {
  import opened EcmaText
  import opened Options
  import opened JsValue

  // ----- The e-mail regular expression -----

  /** The class `[^\s@]`. */
  predicate IsAddressChar(c: char)
  {
    !IsSpace(c) && c != '@'
  }

  /** `[^\s@]+` matches all of `t`. */
  predicate IsAddressRun(t: string)
  {
    |t| > 0 && forall k :: 0 <= k < |t| ==> IsAddressChar(t[k])
  }

  /** The language of the anchored regular expression: `s` splits at an `@` (index `i`)
      and a later `.` (index `j`) into three runs of `[^\s@]+`. */
  ghost predicate MatchesEmailRegex(s: string)
  {
    exists i, j :: 0 <= i < j < |s| && s[i] == '@' && s[j] == '.'
      && IsAddressRun(s[..i]) && IsAddressRun(s[i + 1..j]) && IsAddressRun(s[j + 1..])
  }

  predicate NoSpace(s: string)
  {
    forall k :: 0 <= k < |s| ==> !IsSpace(s[k])
  }

  /** The only `@` of `s` is at index `at`. */
  predicate OnlyAtSign(s: string, at: int)
  {
    forall k :: 0 <= k < |s| && k != at ==> s[k] != '@'
  }

  /** The domain after the `@` at index `at` contains a `.` with at least one
      character on each side of it. */
  predicate HasInnerDot(s: string, at: nat)
  {
    exists d :: at + 1 < d < |s| - 1 && s[d] == '.'
  }

  /** The shape an accepted address has: no `\s` character anywhere, and a single `@`
      after a non-empty local part, followed by a domain with an inner dot. */
  predicate WellFormedEmail(s: string)
  {
    NoSpace(s) && exists at :: 0 < at < |s| && s[at] == '@' && OnlyAtSign(s, at) && HasInnerDot(s, at)
  }

  /** The regular expression accepts exactly the well-formed addresses. */
  lemma EmailRegexCharacterisation(s: string)
    ensures MatchesEmailRegex(s) <==> WellFormedEmail(s)
  {
    if MatchesEmailRegex(s) {
      var i, j :| 0 <= i < j < |s| && s[i] == '@' && s[j] == '.'
        && IsAddressRun(s[..i]) && IsAddressRun(s[i + 1..j]) && IsAddressRun(s[j + 1..]);
      forall k | 0 <= k < |s|
        ensures !IsSpace(s[k]) && (k != i ==> s[k] != '@')
      {
        if k < i {
          assert s[k] == s[..i][k];
        } else if i < k < j {
          assert s[k] == s[i + 1..j][k - i - 1];
        } else if j < k {
          assert s[k] == s[j + 1..][k - j - 1];
        }
      }
      assert HasInnerDot(s, i) by {
        assert i + 1 < j < |s| - 1;
      }
    }
    if WellFormedEmail(s) {
      var at :| 0 < at < |s| && s[at] == '@' && OnlyAtSign(s, at) && HasInnerDot(s, at);
      var d :| at + 1 < d < |s| - 1 && s[d] == '.';
      assert IsAddressRun(s[..at]);
      assert IsAddressRun(s[at + 1..d]);
      assert IsAddressRun(s[d + 1..]);
    }
  }

  /** A character that occurs at exactly one index occurs once in the multiset. */
  lemma SingleOccurrence(s: string, at: nat)
    requires at < |s| && s[at] == '@' && OnlyAtSign(s, at)
    ensures multiset(s)['@'] == 1
  {
    var pre, post := s[..at], s[at + 1..];
    assert s == pre + [s[at]] + post;
    assert '@' !in pre by {
      forall k | 0 <= k < |pre| ensures pre[k] != '@' { assert pre[k] == s[k]; }
    }
    assert '@' !in post by {
      forall k | 0 <= k < |post| ensures post[k] != '@' { assert post[k] == s[at + 1 + k]; }
    }
    assert multiset(s) == multiset(pre) + multiset([s[at]]) + multiset(post);
  }

  /** Every accepted address holds exactly one `@` and no WhiteSpace or LineTerminator. */
  lemma AcceptedEmailIsClean(s: string)
    requires MatchesEmailRegex(s)
    ensures multiset(s)['@'] == 1
    ensures forall k :: 0 <= k < |s| ==> !IsWhiteSpace(s[k]) && !IsLineTerminator(s[k])
  {
    EmailRegexCharacterisation(s);
    var at :| 0 < at < |s| && s[at] == '@' && OnlyAtSign(s, at) && HasInnerDot(s, at);
    SingleOccurrence(s, at);
  }

  /** `emailRegex.test(email)` as a single left-to-right scan. */
  method TestEmail(s: string) returns (ok: bool)
    ensures ok <==> MatchesEmailRegex(s)
  {
    EmailRegexCharacterisation(s);
    var at := -1;
    var dot := false;
    var k := 0;
    while k < |s|
      invariant 0 <= k <= |s|
      invariant forall m :: 0 <= m < k ==> !IsSpace(s[m])
      invariant at == -1 ==> forall m :: 0 <= m < k ==> s[m] != '@'
      invariant at != -1 ==> 0 <= at < k && s[at] == '@' && forall m :: 0 <= m < k && m != at ==> s[m] != '@'
      invariant dot <==> at != -1 && exists d :: at + 1 < d < k && d < |s| - 1 && s[d] == '.'
    {
      var c := s[k];
      if IsSpace(c) {
        return false;
      }
      if c == '@' {
        if at != -1 {
          assert forall a :: 0 <= a < |s| ==> !OnlyAtSign(s, a) by {
            forall a | 0 <= a < |s|
              ensures !OnlyAtSign(s, a)
            {
              if a == at {
                assert s[k] == '@';
              } else {
                assert s[at] == '@';
              }
            }
          }
          return false;
        }
        at := k;
      } else if c == '.' && at != -1 && at + 1 < k && k < |s| - 1 {
        dot := true;
      }
      k := k + 1;
    }
    ok := at > 0 && dot;
    if at > 0 && !dot {
      assert !HasInnerDot(s, at);
    }
  }

  // ----- The request handler -----

  const InvalidAddress := "Invalid email address"
  const InvalidFormat := "Invalid email format"
  const Joined := "Successfully added to waitlist"
  const JoinFailed := "Failed to join waitlist"

  /** The JSON response body (`ApiResponse` without its unused `data` member) together
      with the HTTP status it is sent with. */
  datatype Response = Response(success: bool, error: Option<string>, message: Option<string>, status: int)

  /** `request.json()` resolved (`Some`) and destructuring `{ email }` did not throw,
      which it does for a `null` body. */
  predicate BodyReadable(body: Option<Json>)
  {
    body.Some? && !Nullish(body.value)
  }

  /** The `email` member of a readable body. */
  function EmailOf(body: Option<Json>): Json
    requires BodyReadable(body)
  {
    Member(body.value, "email")
  }

  /** The handler. `body` is `None` when the request body is not valid JSON. */
  function Post(body: Option<Json>): (r: Response)
    ensures !BodyReadable(body) <==> r.status == 500
    ensures r.status == 500 ==> r.error == Some(JoinFailed)
    ensures r.error == Some(InvalidAddress) <==>
              BodyReadable(body) && (!EmailOf(body).Str? || EmailOf(body).s == "")
    ensures r.error == Some(InvalidFormat) <==>
              BodyReadable(body) && EmailOf(body).Str? && EmailOf(body).s != ""
              && !MatchesEmailRegex(EmailOf(body).s)
    ensures r.success <==> BodyReadable(body) && EmailOf(body).Str? && MatchesEmailRegex(EmailOf(body).s)
    ensures r.success ==> r.status == 200 && r.message == Some(Joined) && r.error.None?
    ensures !r.success ==> (r.status == 400 || r.status == 500) && r.error.Some? && r.message.None?
  {
    if !BodyReadable(body) then
      Response(false, Some(JoinFailed), None, 500)
    else
      var email := Member(body.value, "email");
      if !Truthy(email) || !email.Str? then
        Response(false, Some(InvalidAddress), None, 400)
      else
        EmailRegexCharacterisation(email.s);
        if !WellFormedEmail(email.s) then
          Response(false, Some(InvalidFormat), None, 400)
        else
          Response(true, None, Some(Joined), 200)
  }

  /** The presence check runs first: an empty `email` string is reported as an invalid
      address, never as an invalid format, although it does not match the regex either. */
  lemma EmptyEmailIsInvalidAddress(fields: map<string, Json>)
    requires "email" in fields && fields["email"] == Str("")
    ensures Post(Some(Obj(fields))) == Response(false, Some(InvalidAddress), None, 400)
    ensures !MatchesEmailRegex("")
  {
  }
}
