/** The state of the "Create New Request" form: the list of URL rows and the
    parallel list of error messages, and the handlers that act on them.

    Each handler is one atomic step. It reads the state as it was when the
    handler was called, the way a React closure captures its render's state,
    and writes the new values of both lists at the end. */
module CreateRequest {
  import opened UrlValidator

  /** What a click on "Create Request" does: hand the URL list to the
      submission logic (a log line in the component), or nothing. */
  datatype Submission = Submitted(urls: seq<string>) | Suppressed

  class Form {
    var urlList: seq<string>
    var errorMessages: seq<string>

    /** The state invariant that every handler keeps:
        - there is always at least one row;
        - there is one message per row, or one fewer, and one fewer only
          while the form is untouched since mount (every row and every
          message empty);
        - a message on show is either empty or the right one for its row. */
    ghost predicate Valid()
      reads this
    {
      |urlList| >= 1 &&
      (|errorMessages| == |urlList| || |errorMessages| + 1 == |urlList|) &&
      (|errorMessages| + 1 == |urlList| ==> Pristine()) &&
      forall k :: 0 <= k < |errorMessages| ==>
        errorMessages[k] == "" || errorMessages[k] == UrlMessage(urlList[k])
    }

    /** Every row and every message is empty. */
    ghost predicate Pristine()
      reads this
    {
      (forall k :: 0 <= k < |urlList| ==> urlList[k] == "") && NoErrors(errorMessages)
    }

    /** The form on mount: one blank row and no messages. */
    constructor ()
      ensures Valid()
      ensures urlList == [""] && errorMessages == []
    {
      urlList := [""];
      errorMessages := [];
    }

    /** `validateUrls`: replaces the messages by those computed for `urls`. */
    method ValidateUrls(urls: seq<string>)
      modifies this
      ensures urlList == old(urlList)
      ensures errorMessages == ValidationMessages(urls)
    {
      errorMessages := ValidationMessages(urls);
    }

    /** `handleUrlChange`: puts `newUrl` into row `index`, leaves every other
        row as it was, and re-validates the whole updated list. */
    method HandleUrlChange(index: nat, newUrl: string)
      requires Valid()
      requires index < |urlList|
      modifies this
      ensures Valid()
      ensures urlList == old(urlList)[index := newUrl]
      ensures errorMessages == ValidationMessages(urlList)
    {
      var updatedUrlList := urlList;
      updatedUrlList := updatedUrlList[index := newUrl];
      urlList := updatedUrlList;
      ValidateUrls(updatedUrlList);
    }

    /** `handleAddUrl`: appends one blank row and one empty message, without
        validating. */
    method HandleAddUrl()
      requires Valid()
      modifies this
      ensures Valid()
      ensures urlList == old(urlList) + [""]
      ensures errorMessages == old(errorMessages) + [""]
    {
      urlList := urlList + [""];
      errorMessages := errorMessages + [""];
    }

    /** `handleRemoveUrl`, offered only while there is more than one row:
        drops the last row and clears every message, without re-validating
        the rows that remain. */
    method HandleRemoveUrl()
      requires Valid()
      requires |urlList| > 1
      modifies this
      ensures Valid()
      ensures urlList == old(urlList)[..|old(urlList)| - 1]
      ensures |errorMessages| == |urlList| && NoErrors(errorMessages)
    {
      var updatedUrlList := urlList;
      updatedUrlList := updatedUrlList[..|updatedUrlList| - 1];
      urlList := updatedUrlList;
      errorMessages := seq(|updatedUrlList|, _ => "");
    }

    /** `handleSubmit`, as written: it re-validates the list, but the gate
        reads the messages captured before that validation, so it passes
        exactly when the messages shown before the click were all empty. */
    method HandleSubmit() returns (submission: Submission)
      requires Valid()
      modifies this
      ensures Valid()
      ensures urlList == old(urlList)
      ensures errorMessages == ValidationMessages(urlList)
      ensures submission.Submitted? <==> NoErrors(old(errorMessages))
      ensures submission.Submitted? ==> submission.urls == urlList
    {
      var errorsBeforeClick := errorMessages;
      ValidateUrls(urlList);
      if NoErrors(errorsBeforeClick) {
        submission := Submitted(urlList);
      } else {
        submission := Suppressed;
      }
    }

    /** The submit handler as its comment intends it: the gate reads the
        messages just computed, so the list is handed on exactly when every
        URL in it is accepted. */
    method HandleSubmitIntended() returns (submission: Submission)
      requires Valid()
      modifies this
      ensures Valid()
      ensures urlList == old(urlList)
      ensures errorMessages == ValidationMessages(urlList)
      ensures submission.Submitted? <==> forall k :: 0 <= k < |urlList| ==> IsValidUrl(urlList[k])
      ensures submission.Submitted? ==> submission.urls == urlList
    {
      ValidateUrls(urlList);
      NoErrorsIffAllValid(urlList);
      if NoErrors(errorMessages) {
        submission := Submitted(urlList);
      } else {
        submission := Suppressed;
      }
    }
  }

  /** On a fresh form, a click on "Create Request" hands on the blank list,
      although validating that list yields "URL cannot be empty.". */
  method SubmitRightAfterMount() returns (submission: Submission, shown: seq<string>)
    ensures submission == Submitted([""])
    ensures shown == [EMPTY_URL_MESSAGE]
  {
    var form := new Form();
    submission := form.HandleSubmit();
    shown := form.errorMessages;
  }

  /** The same click with the intended gate hands on nothing. */
  method SubmitIntendedRightAfterMount() returns (submission: Submission, shown: seq<string>)
    ensures submission == Suppressed
    ensures shown == [EMPTY_URL_MESSAGE]
  {
    var form := new Form();
    submission := form.HandleSubmitIntended();
    shown := form.errorMessages;
  }

  /** Adding a row and removing it again returns to one blank row, now with
      one empty message. */
  method AddThenRemove() returns (urls: seq<string>, errors: seq<string>)
    ensures urls == [""] && errors == [""]
  {
    var form := new Form();
    form.HandleAddUrl();
    assert form.urlList == ["", ""];
    form.HandleRemoveUrl();
    urls, errors := form.urlList, form.errorMessages;
  }

  /** A second row with `ftp://bad` typed into it, the first left blank:
      both kinds of error show, and the next click hands on nothing. */
  method TwoBadRows() returns (errors: seq<string>, submission: Submission)
    ensures errors == [EMPTY_URL_MESSAGE, INVALID_URL_MESSAGE]
    ensures submission == Suppressed
  {
    var form := new Form();
    form.HandleAddUrl();
    form.HandleUrlChange(1, "ftp://bad");
    ValidationScenarios();
    errors := form.errorMessages;
    submission := form.HandleSubmit();
  }

  /** Typing a good URL into the only row and clicking twice: the first click
      already hands the list on, and so does the second. */
  method OneGoodRow() returns (first: Submission, second: Submission)
    ensures first == Submitted(["https://example.com/video1"])
    ensures second == first
  {
    var form := new Form();
    form.HandleUrlChange(0, "https://example.com/video1");
    ValidationScenarios();
    first := form.HandleSubmit();
    second := form.HandleSubmit();
  }

  /** A good first row, then a new blank row: the blank row shows no message,
      so the click hands on a list with an empty URL in it. */
  method AddAfterGoodRow() returns (submission: Submission)
    ensures submission == Submitted(["https://example.com/video1", ""])
  {
    var form := new Form();
    form.HandleUrlChange(0, "https://example.com/video1");
    ValidationScenarios();
    form.HandleAddUrl();
    submission := form.HandleSubmit();
  }
}
