/**
  The create/update form: its editable fields, how a submission is assembled and
  which mutation it goes to, and what the success, failure and timer events do to
  the form and to the shared post cache.
*/
module PostForm {
  import opened Posts
  import Cache

  /**
    The user-id field holds whatever was last put in it: the number copied from a
    selected post, or the text of the number input as typed (possibly empty).
  */
  datatype UserIdField = Copied(number: int) | Typed(text: string)

  /** The three editable fields of the form. */
  datatype Fields = Fields(title: string, body: string, userId: UserIdField)

  /** The fields of an empty form. */
  const CLEARED: Fields := Fields("", "", Typed(""))

  /** The payload a submission sends: the selected post's id, if any, and the field values. */
  datatype Draft = Draft(id: Option<int>, userId: UserIdField, title: string, body: string)

  datatype Mode = Create | Update

  /** The mutation a submission starts, with its payload. */
  datatype Request = Request(mode: Mode, post: Draft)

  /** The state of the form's mutation; only the success handler is defined by the form. */
  datatype MutationStatus = Idle | InFlight | Succeeded | Failed(message: string)

  /** The two one-second timers a success schedules, in scheduling order. */
  datatype Timer = HideSuccessAlert | ResetSelection

  /** What the selection effect puts in the fields. */
  function FieldsFor(selected: Option<Post>): (f: Fields)
    ensures selected.Some? ==>
      f.title == selected.value.title && f.body == selected.value.body && f.userId == Copied(selected.value.userId)
    ensures selected.None? ==> f == CLEARED
  {
    match selected
    case Some(p) => Fields(p.title, p.body, Copied(p.userId))
    case None => CLEARED
  }

  /** The mutation chosen: update when a post is selected, create otherwise. */
  function ModeFor(selected: Option<Post>): (m: Mode)
    ensures m == Update <==> selected.Some?
  {
    if selected.Some? then Update else Create
  }

  /** The submission of the current fields under the current selection. */
  function Assemble(selected: Option<Post>, f: Fields): (r: Request)
    ensures r.mode == Update <==> selected.Some?
    ensures r.mode == Create <==> selected.None?
    ensures r.post.id.Some? <==> selected.Some?
    ensures selected.Some? ==> r.post.id.value == selected.value.id
    ensures r.post.title == f.title && r.post.body == f.body && r.post.userId == f.userId
  {
    var id := match selected case Some(p) => Some(p.id) case None => None;
    Request(ModeFor(selected), Draft(id, f.userId, f.title, f.body))
  }

  /**
    The browser's constraint check of the three `required` inputs: an empty title,
    an empty body or a user-id input whose value reads as empty blocks the submit
    event, so the submit handler never runs.
  */
  predicate Complete(f: Fields) {
    f.title != "" && f.body != "" && f.userId != Typed("")
  }

  /** What pressing submit sends: nothing while a required field is empty, else the assembled request. */
  function SubmitFor(selected: Option<Post>, f: Fields): (r: Option<Request>)
    ensures r.None? <==> f.title == "" || f.body == "" || f.userId == Typed("")
    ensures r.Some? ==> r.value.mode == ModeFor(selected) && r.value.post.title == f.title
    ensures r.Some? ==> r.value.post.body == f.body && r.value.post.userId == f.userId
    ensures r.Some? ==> r.value.post.id == (if selected.Some? then Some(selected.value.id) else None)
  {
    if Complete(f) then Some(Assemble(selected, f)) else None
  }

  /**
    Submitting a freshly selected post unedited sends that post back as it was,
    unless its title or body is empty, which the required inputs reject.
  */
  lemma SubmitUneditedSelection(p: Post)
    ensures SubmitFor(Some(p), FieldsFor(Some(p))) ==
      if p.title != "" && p.body != "" then Some(Request(Update, Draft(Some(p.id), Copied(p.userId), p.title, p.body)))
      else None
  {
  }

  /** A cleared form submits nothing, whatever is selected. */
  lemma SubmitClearedForm(selected: Option<Post>)
    ensures SubmitFor(selected, CLEARED) == None
    ensures SubmitFor(selected, FieldsFor(None)) == None
  {
  }

  /** The form component: its local state, the selected post it was given, the shared cache. */
  class Form {
    var title: string
    var body: string
    var userId: UserIdField
    var showSuccessAlert: bool
    var selected: Option<Post>
    var status: MutationStatus
    var timers: seq<Timer>
    const cache: Cache.PostCache

    function CurrentFields(): Fields
      reads this
    {
      Fields(title, body, userId)
    }

    /** The form as mounted: empty state, then the selection effect runs for the initial post. */
    constructor (cache: Cache.PostCache, post: Option<Post>)
      ensures this.cache == cache && selected == post
      ensures CurrentFields() == FieldsFor(post)
      ensures !showSuccessAlert && status == Idle && timers == []
    {
      this.cache := cache;
      selected := post;
      var f := FieldsFor(post);
      title, body, userId := f.title, f.body, f.userId;
      showSuccessAlert := false;
      status := Idle;
      timers := [];
    }

    /** The selection effect, run when the parent passes a different post (or none). */
    method OnPostChanged(post: Option<Post>)
      modifies this
      ensures selected == post && CurrentFields() == FieldsFor(post)
      ensures showSuccessAlert == old(showSuccessAlert) && status == old(status) && timers == old(timers)
    {
      selected := post;
      match post {
        case Some(p) =>
          title := p.title;
          userId := Copied(p.userId);
          body := p.body;
        case None =>
          title := "";
          body := "";
          userId := Typed("");
      }
    }

    method EditTitle(text: string)
      modifies this
      ensures CurrentFields() == old(CurrentFields()).(title := text)
      ensures selected == old(selected) && showSuccessAlert == old(showSuccessAlert)
      ensures status == old(status) && timers == old(timers)
    {
      title := text;
    }

    method EditUserId(text: string)
      modifies this
      ensures CurrentFields() == old(CurrentFields()).(userId := Typed(text))
      ensures selected == old(selected) && showSuccessAlert == old(showSuccessAlert)
      ensures status == old(status) && timers == old(timers)
    {
      userId := Typed(text);
    }

    method EditBody(text: string)
      modifies this
      ensures CurrentFields() == old(CurrentFields()).(body := text)
      ensures selected == old(selected) && showSuccessAlert == old(showSuccessAlert)
      ensures status == old(status) && timers == old(timers)
    {
      body := text;
    }

    /**
      Pressing submit: when every required input is filled, assemble the payload and
      start the mutation for the current mode; otherwise the browser blocks the event.
    */
    method Submit() returns (req: Option<Request>)
      modifies this
      ensures req == SubmitFor(selected, CurrentFields())
      ensures req.Some? <==> title != "" && body != "" && userId != Typed("")
      ensures req.Some? ==> (req.value.mode == Update <==> selected.Some?)
      ensures req.Some? ==> req.value.post.id == (if selected.Some? then Some(selected.value.id) else None)
      ensures req.Some? ==> req.value.post == Draft(req.value.post.id, userId, title, body)
      ensures status == (if req.Some? then InFlight else old(status))
      ensures CurrentFields() == old(CurrentFields()) && selected == old(selected)
      ensures showSuccessAlert == old(showSuccessAlert) && timers == old(timers)
    {
      req := SubmitFor(selected, CurrentFields());
      if req.Some? {
        status := InFlight;
      }
    }

    /**
      The mutation's success handler: raise the alert, patch the cache according to
      the current selection, schedule the two timers and clear the fields.
    */
    method OnSuccess(data: Post)
      modifies this, cache
      ensures showSuccessAlert && status == Succeeded
      ensures selected.Some? ==> cache.posts == Cache.UpdateById(old(cache.posts), data)
      ensures selected.None? ==> cache.posts == Cache.AppendPost(old(cache.posts), data)
      ensures selected.None? ==> |cache.posts| == |old(cache.posts)| + 1
      ensures selected.Some? ==> |cache.posts| == |old(cache.posts)|
      ensures CurrentFields() == CLEARED
      ensures timers == old(timers) + [HideSuccessAlert, ResetSelection]
      ensures selected == old(selected)
    {
      showSuccessAlert := true;
      timers := timers + [HideSuccessAlert, ResetSelection];
      body, title, userId := "", "", Typed("");
      status := Succeeded;
      if selected.Some? {
        cache.SetUpdated(data);
      } else {
        cache.SetCreated(data);
      }
    }

    /** A failed mutation: the form has no error handler, so only the status records it. */
    method OnError(message: string)
      modifies this
      ensures status == Failed(message)
      ensures CurrentFields() == old(CurrentFields()) && selected == old(selected)
      ensures showSuccessAlert == old(showSuccessAlert) && timers == old(timers)
      ensures cache.posts == old(cache.posts)
    {
      status := Failed(message);
    }

    /**
      The earliest pending timer fires. Hiding the alert clears the flag; resetting the
      selection makes the parent drop the selected post, which re-runs the selection
      effect when a post was selected and does nothing when none was.
    */
    method OnTimerFired()
      modifies this
      ensures old(timers) == [] ==> timers == [] && unchanged(this)
      ensures old(timers) != [] ==> timers == old(timers)[1..]
      ensures old(timers) != [] && old(timers)[0] == HideSuccessAlert ==>
        !showSuccessAlert && selected == old(selected) && CurrentFields() == old(CurrentFields())
      ensures old(timers) != [] && old(timers)[0] == ResetSelection ==>
        selected.None? && showSuccessAlert == old(showSuccessAlert)
      ensures old(timers) != [] && old(timers)[0] == ResetSelection && old(selected).Some? ==>
        CurrentFields() == CLEARED
      ensures old(timers) != [] && old(timers)[0] == ResetSelection && old(selected).None? ==>
        CurrentFields() == old(CurrentFields())
      ensures status == old(status) && cache.posts == old(cache.posts)
    {
      if timers != [] {
        var t := timers[0];
        timers := timers[1..];
        match t {
          case HideSuccessAlert =>
            showSuccessAlert := false;
          case ResetSelection =>
            if selected.Some? {
              OnPostChanged(None);
            }
        }
      }
    }
  }

  /** Selecting post 7, retitling it and submitting updates entry 7 in place, then returns to create mode. */
  method UpdateScenario(others: seq<Post>)
    requires IdUnique(others) && !HasId(others, 7)
  {
    var seven := Post(7, 1, "Old", "Text");
    var cache := new Cache.PostCache(others + [seven]);
    var form := new Form(cache, None);
    form.OnPostChanged(Some(seven));
    form.EditTitle("Updated");
    var req := form.Submit();
    assert req == Some(Request(Update, Draft(Some(7), Copied(1), "Updated", "Text")));
    var returned := Post(7, 1, "Updated", "Text");
    form.OnSuccess(returned);
    Cache.UpdateReplacesOne(others + [seven], returned, |others|) by {
      Cache.AppendUniqueIff(others, seven);
    }
    assert cache.posts == others + [returned];
    assert form.CurrentFields() == CLEARED && form.showSuccessAlert;
    form.OnTimerFired();
    form.OnTimerFired();
    assert !form.showSuccessAlert && form.selected == None && form.timers == [];
    form.EditTitle("Next");
    form.EditBody("Post");
    form.EditUserId("2");
    var next := form.Submit();
    assert next.Some? && next.value.mode == Create && next.value.post.id == None;
  }

  /** Submitting a new post with nothing selected appends the server's reply; the form stays in create mode. */
  method CreateScenario(existing: seq<Post>, newId: int)
    requires IdUnique(existing) && !HasId(existing, newId)
  {
    var cache := new Cache.PostCache(existing);
    var form := new Form(cache, None);
    form.EditUserId("1");
    form.EditTitle("Hello");
    form.EditBody("World");
    var req := form.Submit();
    assert req == Some(Request(Create, Draft(None, Typed("1"), "Hello", "World")));
    var returned := Post(newId, 1, "Hello", "World");
    form.OnSuccess(returned);
    assert |cache.posts| == |existing| + 1 && cache.posts[|existing|] == returned;
    assert IdUnique(cache.posts) by {
      Cache.AppendUniqueIff(existing, returned);
    }
    form.OnTimerFired();
    form.OnTimerFired();
    assert form.selected == None && form.CurrentFields() == CLEARED && !form.showSuccessAlert;
    var blocked := form.Submit();
    assert blocked == None;
  }

  /** A failed update leaves the edited fields and the cache for another try. */
  method FailureScenario(existing: seq<Post>, p: Post)
  {
    var cache := new Cache.PostCache(existing);
    var form := new Form(cache, Some(p));
    form.EditTitle("Retitled");
    var req := form.Submit();
    form.OnError("Failed to update post");
    assert form.CurrentFields() == Fields("Retitled", p.body, Copied(p.userId));
    assert cache.posts == existing && form.selected == Some(p);
    var again := form.Submit();
    assert again == req;
  }
}
