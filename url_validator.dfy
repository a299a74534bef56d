/** The message computation of `validateUrls`: one message per URL, index by
    index, each decided by that URL alone. */
module UrlValidator {
  import opened UrlPattern

  const EMPTY_URL_MESSAGE := "URL cannot be empty."
  const INVALID_URL_MESSAGE := "Please enter a valid URL."

  /** A URL the form accepts: non-empty and in the language of the pattern. */
  ghost predicate IsValidUrl(url: string) {
    url != "" && InUrlLanguage(url)
  }

  /** The message for one URL: the empty string for an accepted URL. */
  function UrlMessage(url: string): (m: string)
    ensures m == "" || m == EMPTY_URL_MESSAGE || m == INVALID_URL_MESSAGE
    ensures m == EMPTY_URL_MESSAGE <==> url == ""
    ensures m == "" <==> IsValidUrl(url)
    ensures m == INVALID_URL_MESSAGE <==> url != "" && !InUrlLanguage(url)
  {
    UrlPatternDecomposition(url);
    if url == "" then EMPTY_URL_MESSAGE
    else if !TestUrlPattern(url) then INVALID_URL_MESSAGE
    else ""
  }

  /** `urls.map(...)`: the list of messages, aligned with the list of URLs. */
  function ValidationMessages(urls: seq<string>): (msgs: seq<string>)
    ensures |msgs| == |urls|
    ensures forall i :: 0 <= i < |urls| ==> msgs[i] == UrlMessage(urls[i])
  {
    if urls == [] then [] else [UrlMessage(urls[0])] + ValidationMessages(urls[1..])
  }

  /** `msgs.every(msg => msg === "")`. */
  predicate NoErrors(msgs: seq<string>) {
    forall k :: 0 <= k < |msgs| ==> msgs[k] == ""
  }

  /** Entry `i` of the messages depends on `urls[i]` alone. */
  lemma MessageDependsOnlyOnItsUrl(a: seq<string>, b: seq<string>, i: nat)
    requires i < |a| && i < |b| && a[i] == b[i]
    ensures ValidationMessages(a)[i] == ValidationMessages(b)[i]
  {
  }

  /** Validating a concatenation validates each part on its own. */
  lemma ValidationMessagesAppend(a: seq<string>, b: seq<string>)
    ensures ValidationMessages(a + b) == ValidationMessages(a) + ValidationMessages(b)
  {
    var l, r := ValidationMessages(a + b), ValidationMessages(a) + ValidationMessages(b);
    forall k | 0 <= k < |l|
      ensures l[k] == r[k]
    {
      if k < |a| {
        assert (a + b)[k] == a[k];
      } else {
        assert (a + b)[k] == b[k - |a|];
      }
    }
  }

  /** The messages are all empty exactly when every URL is accepted. */
  lemma NoErrorsIffAllValid(urls: seq<string>)
    ensures NoErrors(ValidationMessages(urls)) <==> forall k :: 0 <= k < |urls| ==> IsValidUrl(urls[k])
  {
    var msgs := ValidationMessages(urls);
    if NoErrors(msgs) {
      forall k | 0 <= k < |urls|
        ensures IsValidUrl(urls[k])
      {
        assert msgs[k] == "";
      }
    }
  }

  /** The two validation scenarios of the form. */
  lemma ValidationScenarios()
    ensures ValidationMessages(["https://example.com/video1"]) == [""]
    ensures ValidationMessages(["", "ftp://bad"]) == [EMPTY_URL_MESSAGE, INVALID_URL_MESSAGE]
  {
    AcceptedExamples();
    RejectedExamples();
  }
}
