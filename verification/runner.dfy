/**
 * The part of `main` that decides, on each Streamlit rerun, whether a
 * synchronisation pass runs: the arrival of the access token, the settings
 * form, the required-fields check, the Start/Stop buttons and the `running`
 * flag. Each rerun (a user action or the 60-second autorefresh) is one `Tick`.
 */
module Runner {
  import opened Optional
  import opened LocalFs
  import opened Reconciler

  /** The session-state keys the script reads and writes. */
  datatype Session = Session(
    accessToken: Option<string>,
    localFolder: Option<string>,
    remoteFolder: Option<string>,
    running: Option<bool>,
    uploaded: Option<set<string>>)

  /** The values typed into the settings form when it is submitted. */
  datatype Settings = Settings(localFolder: string, remoteFolder: string)

  /** Which of the two buttons was clicked in this rerun, if any. */
  datatype Press = NoPress | Start | Stop

  /** The local filesystem, path by path; a path with no entry does not exist. */
  datatype FileSystem = FileSystem(folders: map<string, LocalFolder>) {
    function Lookup(path: string): LocalFolder {
      if path in folders then folders[path] else Absent
    }
  }

  /** Everything from outside the script that one rerun sees. `authorised` is the
      token a successful OAuth code exchange returns in this rerun; it is `None`
      when no code was sent or the exchange raised. */
  datatype Rerun = Rerun(authorised: Option<string>, submitted: Option<Settings>, press: Press,
                         fs: FileSystem, accepts: string -> bool)

  /** How a rerun ended. `PassRan`: `sync_files` was entered; its outcome may still
      be a missing folder or a raising listing. `TokenMissing`: `running` is set but the session holds no
      access token, and this rerun's exchange did not return one, so reading it
      raises before `sync_files` is called. */
  datatype Status = FieldsIncomplete | Stopped | TokenMissing | PassRan(outcome: Outcome)

  datatype Step = Step(session: Session, status: Status)

  /** Python truthiness of `st.session_state.get(field)` for a string field. */
  predicate Filled(v: Option<string>) {
    v.Some? && v.value != ""
  }

  /** The authorisation block only runs while the session holds no token; a
      successful exchange stores the token it returns. */
  function Authorise(s: Session, authorised: Option<string>): Session {
    if s.accessToken.None? && authorised.Some? then s.(accessToken := authorised) else s
  }

  /** A submitted form overwrites both folder settings. */
  function Submit(s: Session, submitted: Option<Settings>): Session {
    match submitted
    case None => s
    case Some(st) => s.(localFolder := Some(st.localFolder), remoteFolder := Some(st.remoteFolder))
  }

  /** The `running` flag after the buttons: absent counts as false. */
  function RunningAfter(s: Session, press: Press): bool {
    match press
    case Start => true
    case Stop => false
    case NoPress => s.running.GetOr(false)
  }

  predicate IsRunning(s: Session) {
    s.running == Some(true)
  }

  /** The session as the gate sees it: after the authorisation block and the form. */
  function BeforeGate(s: Session, input: Rerun): Session {
    Submit(Authorise(s, input.authorised), input.submitted)
  }

  /** One rerun of `main`. */
  function Tick(s: Session, input: Rerun): (r: Step)
    ensures r.status.PassRan? <==>
              && Filled(BeforeGate(s, input).localFolder)
              && Filled(BeforeGate(s, input).remoteFolder)
              && RunningAfter(s, input.press)
              && (s.accessToken.Some? || input.authorised.Some?)
    ensures r.status.FieldsIncomplete? <==>
              !(Filled(BeforeGate(s, input).localFolder) && Filled(BeforeGate(s, input).remoteFolder))
    ensures r.status.TokenMissing? <==>
              && Filled(BeforeGate(s, input).localFolder)
              && Filled(BeforeGate(s, input).remoteFolder)
              && RunningAfter(s, input.press)
              && BeforeGate(s, input).accessToken.None?
    ensures r.status.PassRan? ==>
              var p := Reconcile(s.uploaded, input.fs.Lookup(BeforeGate(s, input).localFolder.value),
                                 input.accepts);
              r.status.outcome == p.outcome && r.session.uploaded == Some(p.uploaded)
    ensures !r.status.PassRan? ==> r.session.uploaded == s.uploaded
    ensures Prior(s.uploaded) <= Prior(r.session.uploaded)
    ensures r.status.PassRan? ==> Attempted(r.status.outcome) !! Prior(s.uploaded)
    ensures s.accessToken.Some? ==> r.session.accessToken == s.accessToken
    ensures r.session.accessToken == BeforeGate(s, input).accessToken
    ensures r.session.localFolder == BeforeGate(s, input).localFolder
    ensures r.session.remoteFolder == BeforeGate(s, input).remoteFolder
    ensures r.session.accessToken.Some? <==> s.accessToken.Some? || input.authorised.Some?
    ensures input.press == Stop ==> !r.status.PassRan? && (r.status.FieldsIncomplete? || !IsRunning(r.session))
    ensures r.status.FieldsIncomplete? ==> r.session.running == s.running
    ensures !r.status.FieldsIncomplete? ==> IsRunning(r.session) == RunningAfter(s, input.press)
  {
    var s1 := BeforeGate(s, input);
    if !(Filled(s1.localFolder) && Filled(s1.remoteFolder)) then
      Step(s1, FieldsIncomplete)
    else
      var running := RunningAfter(s1, input.press);
      var s2 := s1.(running := Some(running));
      if !running then Step(s2, Stopped)
      else if s2.accessToken.None? then Step(s2, TokenMissing)
      else
        var p := Reconcile(s2.uploaded, input.fs.Lookup(s2.localFolder.value), input.accepts);
        Step(s2.(uploaded := Some(p.uploaded)), PassRan(p.outcome))
  }

  /** The session after a series of reruns. */
  function Run(s: Session, inputs: seq<Rerun>): Session
    decreases |inputs|
  {
    if inputs == [] then s else Run(Tick(s, inputs[0]).session, inputs[1..])
  }

  /** The uploaded set never shrinks over a session, and a token once stored is kept. */
  lemma {:induction false} RunOnlyGrows(s: Session, inputs: seq<Rerun>)
    ensures Prior(s.uploaded) <= Prior(Run(s, inputs).uploaded)
    ensures s.accessToken.Some? ==> Run(s, inputs).accessToken == s.accessToken
    decreases |inputs|
  {
    if inputs != [] {
      RunOnlyGrows(Tick(s, inputs[0]).session, inputs[1..]);
    }
  }

  /** A name uploaded at any point of a session is never tried again later in it. */
  lemma NeverReuploaded(s: Session, inputs: seq<Rerun>, k: nat, n: string)
    requires k < |inputs|
    requires n in Prior(s.uploaded)
    ensures var st := Tick(Run(s, inputs[..k]), inputs[k]).status;
            st.PassRan? ==> n !in Attempted(st.outcome)
  {
    RunOnlyGrows(s, inputs[..k]);
  }

  /** Once stopped, no rerun runs a pass and the set stays put until Start is clicked. */
  lemma {:induction false} StoppedStaysIdle(s: Session, inputs: seq<Rerun>)
    requires !IsRunning(s)
    requires forall i :: 0 <= i < |inputs| ==> inputs[i].press != Start
    ensures !IsRunning(Run(s, inputs))
    ensures Run(s, inputs).uploaded == s.uploaded
    decreases |inputs|
  {
    if inputs != [] {
      var t := Tick(s, inputs[0]);
      assert !t.status.PassRan?;
      StoppedStaysIdle(t.session, inputs[1..]);
    }
  }

  /** While running with an unchanged folder and every upload returning, the second
      rerun after a pass tries nothing. */
  lemma RunningTwiceIsIdempotent(s: Session, input1: Rerun, input2: Rerun)
    requires input2.submitted.None? && input2.press == NoPress
    requires input2.fs == input1.fs
    requires Tick(s, input1).status.PassRan?
    requires forall n :: n in Attempted(Tick(s, input1).status.outcome) ==> input1.accepts(n)
    ensures var t1 := Tick(s, input1);
            var t2 := Tick(t1.session, input2);
            && t2.status.PassRan?
            && Attempted(t2.status.outcome) == {}
            && t2.session.uploaded == t1.session.uploaded
  {
    var t1 := Tick(s, input1);
    var folder := input1.fs.Lookup(t1.session.localFolder.value);
    PassIsIdempotent(s.uploaded, folder, input1.accepts, input2.accepts);
  }

  /** A running session that was stuck without a token runs a pass in the first
      rerun whose code exchange succeeds, with no button clicked, and keeps the
      token that exchange returned. */
  lemma AuthorisingEnablesSync(s: Session, input: Rerun)
    requires s.accessToken.None? && input.authorised.Some?
    requires Filled(s.localFolder) && Filled(s.remoteFolder) && input.submitted.None?
    requires IsRunning(s) && input.press == NoPress
    ensures Tick(s, input).status.PassRan?
    ensures Tick(s, input).session.accessToken == input.authorised
  {
  }
}
