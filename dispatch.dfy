/**
 * One run of the background dispatch job (`send_emails_task` in app.py): load the
 * recipient list, compute the batch window from the persisted cursor and the stopper,
 * log in, and send one personalised message per recipient of the window, advancing the
 * cursor after every accepted message.
 *
 * The outside world is an `Environment`: what reading the list file yields, whether the
 * login succeeds, whether the resume file exists and can be read, and which recipient
 * indices the mail server accepts. A run is specified by the function `Run`; the class
 * `Dispatcher` holds the cursor and the log that the application keeps between runs and
 * performs a run step by step.
 */
module Dispatch {
  import opened Wrappers
  import opened Names
  import opened Recipients
  import opened Templates

  /** The configuration handed to a run by `start_sending`. */
  datatype Config = Config(
    email: Option<string>,
    password: Option<string>,
    stopper: Option<int>,       // the saved batch size; absent when none was saved
    file: Option<string>,
    subject: string,
    body: string,
    resume: Option<string>)

  /** What the run observes of the world. */
  datatype Environment = Environment(
    table: Option<Table>,       // the parsed list file; None when reading it raises
    loginOk: bool,              // connecting, STARTTLS and login all succeed
    resumeExists: nat -> bool,  // the saved resume file is present when the message to this index is prepared
    resumeReadable: nat -> bool, // ... and reading it for that message succeeds
    accepts: nat -> bool)       // the server accepts the message to the recipient at this index

  /** The log entries a run or a counter reset writes (see `Message` for their text). */
  datatype Event =
    | Started
    | MissingConfig
    | LoadFailed
    | NoEmailColumn(file: string)
    | Loaded(count: nat, file: string)
    | AllSent
    | Preparing(first: int, last: int)
    | Connected
    | ConnectFailed
    | AttachFailed(receiver: string)
    | ResumeMissing(name: string)
    | Sent(receiver: string, progress: nat, total: nat)
    | SendFailed(receiver: string)
    | Finished
    | CounterReset

  /** One message handed to the server, and whether the server took it. */
  datatype Attempt = Attempt(index: nat, to: string, subject: string, body: string, attached: bool, accepted: bool)

  /**
   * The SMTP session of a run: whether login succeeded, the messages sent over it,
   * whether `quit` was called, and whether the run died with an uncaught exception.
   */
  datatype Session = Session(loggedIn: bool, attempts: seq<Attempt>, quit: bool, crashed: bool)

  const NO_SESSION := Session(false, [], false, false)

  /** The state a run leaves behind: the persisted cursor, the log, and what happened on the wire. */
  datatype RunResult = RunResult(cursor: nat, log: seq<Event>, session: Session)

  /** The state inside the send loop. */
  datatype Progress = Progress(cursor: nat, log: seq<Event>, attempts: seq<Attempt>, crashed: bool)

  // ------------------------------------------------------------ log text

  function Digit(d: nat): char
    requires d < 10
  {
    "0123456789"[d]
  }

  function NatToString(n: nat): (s: string)
    ensures s != []
  {
    if n < 10 then [Digit(n)] else NatToString(n / 10) + [Digit(n % 10)]
  }

  function IntToString(i: int): string {
    if i < 0 then "-" + NatToString(-i) else NatToString(i)
  }

  /** The text of a log entry, without the timestamp and without exception details. */
  function Message(e: Event): string {
    match e
    case Started => "Email sending process started."
    case MissingConfig => "ERROR: Missing credentials, stopper value, or default CSV file."
    case LoadFailed => "ERROR loading CSV file: "
    case NoEmailColumn(f) => "ERROR: No 'email' column found in " + f + "."
    case Loaded(n, f) => "Loaded " + NatToString(n) + " emails from " + f + "."
    case AllSent => "All emails have already been sent!"
    case Preparing(a, b) => "Preparing to send emails from index " + IntToString(a) + " to " + IntToString(b) + "."
    case Connected => "Successfully connected to Gmail SMTP server."
    case ConnectFailed => "ERROR: Failed to connect to SMTP server. Check credentials. Details: "
    case AttachFailed(r) => "Warning: Could not attach resume for " + r + ". Error: "
    case ResumeMissing(name) => "Warning: Resume file '" + name + "' not found. Sending without attachment."
    case Sent(r, k, n) => "SUCCESS: Email sent to " + r + " (" + NatToString(k) + "/" + NatToString(n) + ")"
    case SendFailed(r) => "ERROR sending to " + r + ": "
    case Finished => "Batch finished. SMTP server connection closed."
    case CounterReset => "Counter has been reset to 0."
  }

  // ------------------------------------------------------------ one run

  /** All of sender address, password and list file are set and non-empty. */
  predicate Configured(cfg: Config) {
    Truthy(cfg.email) && Truthy(cfg.password) && Truthy(cfg.file)
  }

  /** The value substituted for `{greeting}` in the body sent to `receiver`. */
  function Greeting(receiver: string): string {
    "Hi " + ExtractName(receiver)
  }

  /** The batch size when none was saved. */
  const DEFAULT_STOPPER := 100

  /** `config.get('stopper', 100)`: the saved batch size, or 100. */
  function Stopper(cfg: Config): int {
    cfg.stopper.GetOr(DEFAULT_STOPPER)
  }

  /** `end_counter`: the batch ends `stopper` past the cursor, or at the end of the list. */
  function BatchEnd(cursor: nat, stopper: int, n: nat): int {
    if cursor + stopper < n then cursor + stopper else n
  }

  /** Where `range(cursor, end)` stops: it is empty when `end` is below the cursor. */
  function LoopStop(cursor: nat, end: int): nat {
    if end < cursor then cursor else end
  }

  /** The number of recipients a run reaches when nothing goes wrong. */
  function BatchSize(cursor: nat, stopper: int, n: nat): nat {
    if cursor >= n || stopper <= 0 then 0
    else if stopper < n - cursor then stopper
    else n - cursor
  }

  /**
   * The resume goes with the message to index `i` when a non-empty name is saved and
   * the file exists and can be read at that moment; the file is looked up afresh for
   * every message.
   */
  predicate Attached(cfg: Config, env: Environment, i: nat) {
    Truthy(cfg.resume) && env.resumeExists(i) && env.resumeReadable(i)
  }

  /** The warnings logged about the resume for the message to index `i`. */
  function Warnings(cfg: Config, env: Environment, i: nat, receiver: string): seq<Event> {
    if Truthy(cfg.resume) && env.resumeExists(i) then
      if env.resumeReadable(i) then [] else [AttachFailed(receiver)]
    else if Truthy(cfg.resume) then [ResumeMissing(cfg.resume.value)]
    else []
  }

  /**
   * The body rendered for every recipient of the list, in list order; `None` where
   * `str.format` rejects the body.
   */
  function Bodies(body: string, list: seq<string>): (r: seq<Option<string>>)
    ensures |r| == |list| && Renders(body, list, r)
    ensures forall k :: 0 <= k < |r| ==> (r[k].None? <==> Parse(body).None?)
  {
    seq(|list|, k requires 0 <= k < |list| => Render(body, Greeting(list[k])))
  }

  /** `bodies` holds the body rendered for each recipient of `list`. */
  predicate Renders(body: string, list: seq<string>, bodies: seq<Option<string>>) {
    |bodies| == |list| &&
    forall k {:trigger Greeting(list[k])} :: 0 <= k < |list| ==> bodies[k] == Render(body, Greeting(list[k]))
  }

  /**
   * One iteration of the send loop for index `i`, given the rendered bodies: a body
   * that `str.format` rejected ends the run; otherwise the message is sent, and an
   * accepted message moves the cursor to `i + 1`.
   */
  function Step(cfg: Config, env: Environment, list: seq<string>, bodies: seq<Option<string>>, i: nat, p: Progress): Progress
    requires i < |list| == |bodies|
  {
    var receiver := list[i];
    match bodies[i]
    case None => p.(crashed := true)
    case Some(body) =>
      var ok := env.accepts(i);
      var attempt := Attempt(i, receiver, cfg.subject, body, Attached(cfg, env, i), ok);
      var log := p.log + Warnings(cfg, env, i, receiver);
      if ok then Progress(i + 1, log + [Sent(receiver, i + 1, |list|)], p.attempts + [attempt], false)
      else Progress(p.cursor, log + [SendFailed(receiver)], p.attempts + [attempt], false)
  }

  /** The loop state once the indices `start` to `i - 1` have been handled, starting from `p0`. */
  function Upto(cfg: Config, env: Environment, list: seq<string>, bodies: seq<Option<string>>, start: nat, i: nat, p0: Progress): Progress
    requires start <= i <= |list| == |bodies|
    decreases i - start
  {
    if i == start then p0
    else
      var p := Upto(cfg, env, list, bodies, start, i - 1, p0);
      if p.crashed then p else Step(cfg, env, list, bodies, i - 1, p)
  }

  /** The log of a run that has reached the send loop. */
  function Opening(cursor: nat, stopper: int, file: string, n: nat): seq<Event> {
    [Started, Loaded(n, file), Preparing(cursor, BatchEnd(cursor, stopper, n) - 1), Connected]
  }

  /** The state in which the send loop of a run that reached it ends. */
  function Batch(cursor: nat, cfg: Config, env: Environment, list: seq<string>, file: string): Progress
    requires cursor < |list|
  {
    Upto(cfg, env, list, Bodies(cfg.body, list), cursor, LoopStop(cursor, BatchEnd(cursor, Stopper(cfg), |list|)),
         Progress(cursor, Opening(cursor, Stopper(cfg), file, |list|), [], false))
  }

  /** A whole run started with the persisted cursor `cursor`. The log is started afresh. */
  function Run(cursor: nat, cfg: Config, env: Environment): RunResult {
    if !Configured(cfg) then RunResult(cursor, [Started, MissingConfig], NO_SESSION)
    else if env.table.None? then RunResult(cursor, [Started, LoadFailed], NO_SESSION)
    else
      var file := cfg.file.value;
      match RecipientList(env.table.value)
      case None => RunResult(cursor, [Started, NoEmailColumn(file)], NO_SESSION)
      case Some(list) =>
        if StripRaises(env.table.value) then RunResult(cursor, [Started, LoadFailed], NO_SESSION)
        else Deliver(cursor, cfg, env, list, file)
  }

  /** The rest of a run once `list` has been loaded from `file`. */
  function Deliver(cursor: nat, cfg: Config, env: Environment, list: seq<string>, file: string): RunResult {
    if cursor >= |list| then RunResult(cursor, [Started, Loaded(|list|, file), AllSent], NO_SESSION)
    else if !env.loginOk then
      RunResult(cursor, [Started, Loaded(|list|, file), Preparing(cursor, BatchEnd(cursor, Stopper(cfg), |list|) - 1),
                         ConnectFailed], NO_SESSION)
    else Finish(Batch(cursor, cfg, env, list, file))
  }

  /** The end of a run that logged in: `quit` and a closing entry, unless the loop died. */
  function Finish(p: Progress): RunResult {
    if p.crashed then RunResult(p.cursor, p.log, Session(true, p.attempts, false, true))
    else RunResult(p.cursor, p.log + [Finished], Session(true, p.attempts, true, false))
  }

  /** The application's lasting state: the persisted cursor and the in-memory log. */
  class Dispatcher {
    var cursor: nat
    var log: seq<Event>

    /** A fresh installation: no counter file (cursor 0) and an empty log. */
    constructor()
      ensures cursor == 0 && log == []
    {
      cursor := 0;
      log := [];
    }

    /** `send_emails_task`: performs one run. */
    method RunOnce(cfg: Config, env: Environment) returns (session: Session)
      modifies this
      ensures RunResult(cursor, log, session) == Run(old(cursor), cfg, env)
    {
      log := [Started];
      if !Configured(cfg) {
        log := log + [MissingConfig];
        return NO_SESSION;
      }
      if env.table.None? {
        log := log + [LoadFailed];
        return NO_SESSION;
      }
      var file := cfg.file.value;
      var found := RecipientList(env.table.value);
      if found.None? {
        log := log + [NoEmailColumn(file)];
        return NO_SESSION;
      }
      if StripRaises(env.table.value) {
        log := log + [LoadFailed];
        return NO_SESSION;
      }
      session := DeliverOnce(cfg, env, found.value, file);
    }

    /** The part of `send_emails_task` that follows loading the list. */
    method DeliverOnce(cfg: Config, env: Environment, list: seq<string>, file: string) returns (session: Session)
      requires log == [Started]
      modifies this
      ensures RunResult(cursor, log, session) == Deliver(old(cursor), cfg, env, list, file)
    {
      log := log + [Loaded(|list|, file)];
      var start := cursor;
      var end := BatchEnd(start, Stopper(cfg), |list|);
      if start >= |list| {
        log := log + [AllSent];
        return NO_SESSION;
      }
      log := log + [Preparing(start, end - 1)];
      if !env.loginOk {
        log := log + [ConnectFailed];
        return NO_SESSION;
      }
      log := log + [Connected];
      assert log == Opening(start, Stopper(cfg), file, |list|);
      session := SendBatch(cfg, env, list, Bodies(cfg.body, list));
    }

    /** The send loop of `send_emails_task` and what follows it, from a log that has just recorded the login. */
    method SendBatch(cfg: Config, env: Environment, list: seq<string>, ghost bodies: seq<Option<string>>)
      returns (session: Session)
      requires cursor < |list| && Renders(cfg.body, list, bodies)
      modifies this
      ensures RunResult(cursor, log, session)
              == Finish(Upto(cfg, env, list, bodies, old(cursor), LoopStop(old(cursor), BatchEnd(old(cursor), Stopper(cfg), |list|)),
                             Progress(old(cursor), old(log), [], false)))
    {
      var start := cursor;
      var end := BatchEnd(start, Stopper(cfg), |list|);
      ghost var p0 := Progress(start, log, [], false);
      var attempts: seq<Attempt> := [];
      var i := start;
      while i < end
        invariant start <= i <= LoopStop(start, end) <= |list|
        invariant Upto(cfg, env, list, bodies, start, i, p0) == Progress(cursor, log, attempts, false)
        invariant start <= cursor <= i
      {
        var crashed;
        attempts, crashed := SendOne(cfg, env, list, bodies, i, attempts);
        if crashed {
          CrashPersists(cfg, env, list, bodies, start, i + 1, LoopStop(start, end), p0);
          return Session(true, attempts, false, true);
        }
        i := i + 1;
      }
      assert i == LoopStop(start, end);
      log := log + [Finished];
      return Session(true, attempts, true, false);
    }

    /**
     * One pass of the send loop, for the recipient at index `i`: greet, render, report
     * on the resume, send, and on success move the cursor past `i`. `crashed` is set
     * when `str.format` rejects the body; nothing is then sent or logged.
     */
    method SendOne(cfg: Config, env: Environment, list: seq<string>, ghost bodies: seq<Option<string>>,
                   i: nat, attempts: seq<Attempt>)
      returns (attempts': seq<Attempt>, crashed: bool)
      requires i < |list| && Renders(cfg.body, list, bodies)
      requires cursor <= i
      modifies this
      ensures Step(cfg, env, list, bodies, i, Progress(old(cursor), old(log), attempts, false))
              == Progress(cursor, log, attempts', crashed)
      ensures old(cursor) <= cursor <= i + 1
    {
      var receiver := list[i];
      var body := Render(cfg.body, Greeting(receiver));
      if body.None? {
        return attempts, true;
      }
      var attached := false;
      if Truthy(cfg.resume) && env.resumeExists(i) {
        if env.resumeReadable(i) {
          attached := true;
        } else {
          log := log + [AttachFailed(receiver)];
        }
      } else if Truthy(cfg.resume) {
        log := log + [ResumeMissing(cfg.resume.value)];
      }
      var ok := env.accepts(i);
      if ok {
        cursor := i + 1;
        log := log + [Sent(receiver, i + 1, |list|)];
      } else {
        log := log + [SendFailed(receiver)];
      }
      attempts' := attempts + [Attempt(i, receiver, cfg.subject, body.value, attached, ok)];
      crashed := false;
    }

    /** `reset_counter`: the cursor goes back to 0 and the reset is logged. */
    method ResetCounter()
      modifies this
      ensures cursor == 0 && log == old(log) + [CounterReset]
    {
      cursor := 0;
      log := log + [CounterReset];
    }
  }

  // ------------------------------------------------------------ the loop

  /** Once the run has died, later indices change nothing. */
  lemma {:induction false} CrashPersists(cfg: Config, env: Environment, list: seq<string>, bodies: seq<Option<string>>,
                                         start: nat, i: nat, j: nat, p0: Progress)
    requires start <= i <= j <= |list| == |bodies|
    requires Upto(cfg, env, list, bodies, start, i, p0).crashed
    ensures Upto(cfg, env, list, bodies, start, j, p0) == Upto(cfg, env, list, bodies, start, i, p0)
    decreases j - i
  {
    if j > i {
      CrashPersists(cfg, env, list, bodies, start, i, j - 1, p0);
    }
  }

  // ------------------------------------------------------------ what a run does

  /** The recipient list the run reads, when the file can be read and loaded and has an email column. */
  function ListOf(env: Environment): Option<seq<string>> {
    if env.table.None? || StripRaises(env.table.value) then None else RecipientList(env.table.value)
  }

  /** The receivers named by the success entries of a log, in order. */
  function SentTo(log: seq<Event>): seq<string> {
    if log == [] then []
    else SentTo(log[..|log| - 1]) + (if log[|log| - 1].Sent? then [log[|log| - 1].receiver] else [])
  }

  /** The receivers named by the send-failure entries of a log, in order. */
  function FailedTo(log: seq<Event>): seq<string> {
    if log == [] then []
    else FailedTo(log[..|log| - 1]) + (if log[|log| - 1].SendFailed? then [log[|log| - 1].receiver] else [])
  }

  /** The receivers of the messages the server accepted, in order. */
  function AcceptedTo(attempts: seq<Attempt>): seq<string> {
    if attempts == [] then []
    else
      var last := attempts[|attempts| - 1];
      AcceptedTo(attempts[..|attempts| - 1]) + (if last.accepted then [last.to] else [])
  }

  /** The receivers of the messages the server refused, in order. */
  function RejectedTo(attempts: seq<Attempt>): seq<string> {
    if attempts == [] then []
    else
      var last := attempts[|attempts| - 1];
      RejectedTo(attempts[..|attempts| - 1]) + (if last.accepted then [] else [last.to])
  }

  /**
   * The attempts are one per index from `start` on, in ascending order, each to the
   * recipient at that index, with the configured subject, the body rendered for that
   * recipient, the attachment decision and the server's answer for that index.
   */
  predicate Orderly(cfg: Config, env: Environment, list: seq<string>, bodies: seq<Option<string>>, start: nat, attempts: seq<Attempt>)
    requires |list| == |bodies|
  {
    (attempts != [] ==> start + |attempts| <= |list|) &&
    forall k :: 0 <= k < |attempts| ==>
      attempts[k].index == start + k && attempts[k].to == list[start + k] &&
      attempts[k].subject == cfg.subject && bodies[start + k] == Some(attempts[k].body) &&
      attempts[k].attached == Attached(cfg, env, start + k) && attempts[k].accepted == env.accepts(start + k)
  }

  /** Attempt `k` is the last one the server accepted. */
  predicate LastAccepted(attempts: seq<Attempt>, k: nat) {
    k < |attempts| && attempts[k].accepted && forall l :: k < l < |attempts| ==> !attempts[l].accepted
  }

  /** One more index of the loop: a step, unless the run has died or dies now, leaving the rest as it was. */
  lemma UptoNext(cfg: Config, env: Environment, list: seq<string>, bodies: seq<Option<string>>,
                 start: nat, i: nat, p0: Progress)
    requires start < i <= |list| == |bodies|
    ensures var q := Upto(cfg, env, list, bodies, start, i - 1, p0);
      var p := Upto(cfg, env, list, bodies, start, i, p0);
      if !q.crashed && bodies[i - 1].Some? then p == Step(cfg, env, list, bodies, i - 1, q)
      else p.crashed && p.cursor == q.cursor && p.log == q.log && p.attempts == q.attempts
  {
  }

  /** One loop step that sends adds the attempt for its index. */
  lemma StepOrderly(cfg: Config, env: Environment, list: seq<string>, bodies: seq<Option<string>>,
                    start: nat, i: nat, q: Progress)
    requires i < |list| == |bodies| && bodies[i].Some?
    requires Orderly(cfg, env, list, bodies, start, q.attempts) && |q.attempts| == i - start
    ensures var p := Step(cfg, env, list, bodies, i, q);
      Orderly(cfg, env, list, bodies, start, p.attempts) && |p.attempts| == i + 1 - start
  {
    var p := Step(cfg, env, list, bodies, i, q);
    assert p.attempts[..|q.attempts|] == q.attempts;
  }

  /**
   * After the loop has reached `i`, it has made one attempt per index from `start` on;
   * it stopped early only because the body for the next index could not be rendered.
   */
  lemma {:induction false} UptoAttempts(cfg: Config, env: Environment, list: seq<string>, bodies: seq<Option<string>>,
                                        start: nat, i: nat, p0: Progress)
    requires start <= i <= |list| == |bodies|
    requires p0.attempts == [] && !p0.crashed
    ensures var p := Upto(cfg, env, list, bodies, start, i, p0);
      Orderly(cfg, env, list, bodies, start, p.attempts) &&
      if p.crashed then start + |p.attempts| < i && bodies[start + |p.attempts|].None?
      else |p.attempts| == i - start
    decreases i - start
  {
    if i > start {
      UptoAttempts(cfg, env, list, bodies, start, i - 1, p0);
      var q := Upto(cfg, env, list, bodies, start, i - 1, p0);
      UptoNext(cfg, env, list, bodies, start, i, p0);
      if !q.crashed && bodies[i - 1].Some? {
        StepOrderly(cfg, env, list, bodies, start, i - 1, q);
      }
    }
  }

  /**
   * The cursor rule: the cursor is still at `start` while no message was accepted,
   * and otherwise sits one past the index of the last accepted message.
   */
  predicate CursorRule(start: nat, attempts: seq<Attempt>, cursor: nat) {
    ((forall k :: 0 <= k < |attempts| ==> !attempts[k].accepted) ==> cursor == start) &&
    (forall k :: 0 <= k < |attempts| && LastAccepted(attempts, k) ==> cursor == attempts[k].index + 1)
  }

  /** Where the cursor stands after `attempts` were made from index `start` on. */
  function CursorAfter(start: nat, attempts: seq<Attempt>): nat {
    if attempts == [] then start
    else
      var last := attempts[|attempts| - 1];
      if last.accepted then last.index + 1 else CursorAfter(start, attempts[..|attempts| - 1])
  }

  /**
   * The cursor inside the loop: unchanged while nothing was accepted, otherwise one
   * past the index of the last accepted message.
   */
  lemma {:induction false} UptoCursor(cfg: Config, env: Environment, list: seq<string>, bodies: seq<Option<string>>,
                                      start: nat, i: nat, p0: Progress)
    requires start <= i <= |list| == |bodies|
    requires p0.attempts == [] && !p0.crashed && p0.cursor == start
    ensures var p := Upto(cfg, env, list, bodies, start, i, p0); p.cursor == CursorAfter(start, p.attempts)
    decreases i - start
  {
    if i > start {
      UptoCursor(cfg, env, list, bodies, start, i - 1, p0);
      UptoCursorAt(cfg, env, list, bodies, start, i, p0);
    }
  }

  /** The cursor keeps to the rule at index `i` when it does at the index before. */
  lemma UptoCursorAt(cfg: Config, env: Environment, list: seq<string>, bodies: seq<Option<string>>,
                     start: nat, i: nat, p0: Progress)
    requires start < i <= |list| == |bodies|
    requires var q := Upto(cfg, env, list, bodies, start, i - 1, p0); q.cursor == CursorAfter(start, q.attempts)
    ensures var p := Upto(cfg, env, list, bodies, start, i, p0); p.cursor == CursorAfter(start, p.attempts)
  {
    UptoNext(cfg, env, list, bodies, start, i, p0);
    CursorStep(cfg, env, list, bodies, i - 1, Upto(cfg, env, list, bodies, start, i - 1, p0),
               Upto(cfg, env, list, bodies, start, i, p0), start);
  }

  /** The inductive step of `UptoCursor`: whether or not the loop sends at index `i`, the cursor keeps to the rule. */
  lemma CursorStep(cfg: Config, env: Environment, list: seq<string>, bodies: seq<Option<string>>, i: nat,
                   q: Progress, p: Progress, start: nat)
    requires i < |list| == |bodies|
    requires q.cursor == CursorAfter(start, q.attempts)
    requires !q.crashed && bodies[i].Some? ==> p == Step(cfg, env, list, bodies, i, q)
    requires q.crashed || bodies[i].None? ==> p.cursor == q.cursor && p.attempts == q.attempts
    ensures p.cursor == CursorAfter(start, p.attempts)
  {
    if !q.crashed && bodies[i].Some? {
      StepCursorRule(cfg, env, list, bodies, i, q, start);
    }
  }

  /**
   * One pass of the loop never moves the saved cursor back, and leaves it at most one
   * past the index just handled: a run stopped after any pass has lost no ground.
   */
  lemma {:induction false} UptoCursorGrows(cfg: Config, env: Environment, list: seq<string>, bodies: seq<Option<string>>,
                                           start: nat, i: nat, p0: Progress)
    requires start < i <= |list| == |bodies|
    requires p0.cursor == start
    ensures var q := Upto(cfg, env, list, bodies, start, i - 1, p0);
      var p := Upto(cfg, env, list, bodies, start, i, p0);
      start <= q.cursor <= p.cursor <= i
    decreases i - start
  {
    if i - 1 > start {
      UptoCursorGrows(cfg, env, list, bodies, start, i - 1, p0);
    }
    UptoNext(cfg, env, list, bodies, start, i, p0);
    CursorGrowsStep(cfg, env, list, bodies, i - 1, Upto(cfg, env, list, bodies, start, i - 1, p0),
                    Upto(cfg, env, list, bodies, start, i, p0));
  }

  /** Handling index `i` leaves the cursor where it was or puts it right after `i`. */
  lemma CursorGrowsStep(cfg: Config, env: Environment, list: seq<string>, bodies: seq<Option<string>>,
                        i: nat, q: Progress, p: Progress)
    requires i < |list| == |bodies|
    requires !q.crashed && bodies[i].Some? ==> p == Step(cfg, env, list, bodies, i, q)
    requires q.crashed || bodies[i].None? ==> p.cursor == q.cursor
    ensures p.cursor == q.cursor || p.cursor == i + 1
  {
  }

  /** One loop step that sends: it adds one attempt, and moves the cursor past it exactly when it is accepted. */
  lemma StepCursor(cfg: Config, env: Environment, list: seq<string>, bodies: seq<Option<string>>, i: nat, q: Progress)
    requires i < |list| == |bodies| && bodies[i].Some?
    ensures var p := Step(cfg, env, list, bodies, i, q);
      var a := p.attempts[|q.attempts|];
      p.attempts == q.attempts + [a] && a.index == i && a.accepted == env.accepts(i) &&
      (a.accepted ==> p.cursor == i + 1) && (!a.accepted ==> p.cursor == q.cursor)
  {
  }

  /** One loop step that sends keeps the cursor where the attempts so far put it. */
  lemma StepCursorRule(cfg: Config, env: Environment, list: seq<string>, bodies: seq<Option<string>>, i: nat, q: Progress,
                       start: nat)
    requires i < |list| == |bodies| && bodies[i].Some?
    requires q.cursor == CursorAfter(start, q.attempts)
    ensures var p := Step(cfg, env, list, bodies, i, q); p.cursor == CursorAfter(start, p.attempts)
  {
    var p := Step(cfg, env, list, bodies, i, q);
    StepCursor(cfg, env, list, bodies, i, q);
    assert p.attempts[..|p.attempts| - 1] == q.attempts;
  }

  /** `CursorAfter` follows the cursor rule. */
  lemma {:induction false} CursorAfterRule(start: nat, attempts: seq<Attempt>)
    ensures CursorRule(start, attempts, CursorAfter(start, attempts))
  {
    if attempts != [] {
      var init := attempts[..|attempts| - 1];
      var last := attempts[|attempts| - 1];
      CursorAfterRule(start, init);
      assert attempts == init + [last];
      CursorCombine(start, init, CursorAfter(start, init), last, CursorAfter(start, attempts));
    }
  }

  /** The cursor rule survives appending one attempt. */
  lemma CursorCombine(start: nat, attempts: seq<Attempt>, cursor: nat, a: Attempt, cursor': nat)
    requires CursorRule(start, attempts, cursor)
    requires a.accepted ==> cursor' == a.index + 1
    requires !a.accepted ==> cursor' == cursor
    ensures CursorRule(start, attempts + [a], cursor')
  {
    var all := attempts + [a];
    var n := |attempts|;
    assert all[n] == a;
    if a.accepted {
      forall k: nat | LastAccepted(all, k)
        ensures k == n
      {
      }
    } else {
      forall k: nat | LastAccepted(all, k)
        ensures LastAccepted(attempts, k) && all[k] == attempts[k]
      {
        assert k < n;
        forall l | k < l < n
          ensures !attempts[l].accepted
        {
          assert all[l] == attempts[l];
        }
      }
      if forall k :: 0 <= k < |all| ==> !all[k].accepted {
        forall k | 0 <= k < n
          ensures !attempts[k].accepted
        {
          assert all[k] == attempts[k];
        }
      }
    }
  }

  /** The entry that reports the server's answer to an attempt, in a list of `total` recipients. */
  function Outcome(a: Attempt, total: nat): Event {
    if a.accepted then Sent(a.to, a.index + 1, total) else SendFailed(a.to)
  }

  /** The entries the send loop writes for `attempts`: for each, the resume warnings, then its outcome. */
  function Entries(cfg: Config, env: Environment, total: nat, attempts: seq<Attempt>): seq<Event> {
    if attempts == [] then []
    else
      var last := attempts[|attempts| - 1];
      Entries(cfg, env, total, attempts[..|attempts| - 1]) + Warnings(cfg, env, last.index, last.to) + [Outcome(last, total)]
  }

  /** One loop step that sends writes the entries of the attempt it adds. */
  lemma StepEntries(cfg: Config, env: Environment, list: seq<string>, bodies: seq<Option<string>>, i: nat, q: Progress,
                    log0: seq<Event>)
    requires i < |list| == |bodies| && bodies[i].Some?
    requires q.log == log0 + Entries(cfg, env, |list|, q.attempts)
    ensures var p := Step(cfg, env, list, bodies, i, q); p.log == log0 + Entries(cfg, env, |list|, p.attempts)
  {
    var p := Step(cfg, env, list, bodies, i, q);
    var a := p.attempts[|q.attempts|];
    assert p.attempts[..|p.attempts| - 1] == q.attempts;
    var w := Warnings(cfg, env, i, list[i]);
    var e := Outcome(a, |list|);
    assert p.log == q.log + w + [e];
    assert (log0 + Entries(cfg, env, |list|, q.attempts)) + w + [e] == log0 + (Entries(cfg, env, |list|, q.attempts) + w + [e]);
  }

  /** The log of `p` is `log0` followed by the entries of the attempts of `p`. */
  predicate LogShaped(cfg: Config, env: Environment, total: nat, log0: seq<Event>, p: Progress) {
    p.log == log0 + Entries(cfg, env, total, p.attempts)
  }

  /** The loop's log is the log it started from, followed by the entries of its attempts. */
  lemma {:induction false} UptoLog(cfg: Config, env: Environment, list: seq<string>, bodies: seq<Option<string>>,
                                   start: nat, i: nat, p0: Progress)
    requires start <= i <= |list| == |bodies|
    requires p0.attempts == [] && !p0.crashed
    ensures LogShaped(cfg, env, |list|, p0.log, Upto(cfg, env, list, bodies, start, i, p0))
    decreases i - start
  {
    if i > start {
      UptoLog(cfg, env, list, bodies, start, i - 1, p0);
    }
    UptoLogAt(cfg, env, list, bodies, start, i, p0);
  }

  /** The log has its shape at index `i` when it has it at the index before. */
  lemma UptoLogAt(cfg: Config, env: Environment, list: seq<string>, bodies: seq<Option<string>>,
                  start: nat, i: nat, p0: Progress)
    requires start <= i <= |list| == |bodies|
    requires p0.attempts == []
    requires start < i ==> LogShaped(cfg, env, |list|, p0.log, Upto(cfg, env, list, bodies, start, i - 1, p0))
    ensures LogShaped(cfg, env, |list|, p0.log, Upto(cfg, env, list, bodies, start, i, p0))
  {
    if i == start {
      assert p0.log + [] == p0.log;
    } else {
      UptoNext(cfg, env, list, bodies, start, i, p0);
      LogStep(cfg, env, list, bodies, i - 1, Upto(cfg, env, list, bodies, start, i - 1, p0),
              Upto(cfg, env, list, bodies, start, i, p0), p0.log);
    }
  }

  /** The inductive step of `UptoLog`: whether or not the loop sends at index `i`, the log keeps its shape. */
  lemma LogStep(cfg: Config, env: Environment, list: seq<string>, bodies: seq<Option<string>>, i: nat,
                q: Progress, p: Progress, log0: seq<Event>)
    requires i < |list| == |bodies|
    requires LogShaped(cfg, env, |list|, log0, q)
    requires !q.crashed && bodies[i].Some? ==> p == Step(cfg, env, list, bodies, i, q)
    requires q.crashed || bodies[i].None? ==> p.log == q.log && p.attempts == q.attempts
    ensures LogShaped(cfg, env, |list|, log0, p)
  {
    if !q.crashed && bodies[i].Some? {
      StepEntries(cfg, env, list, bodies, i, q, log0);
    }
  }

  lemma {:induction false} SentToAppend(a: seq<Event>, b: seq<Event>)
    ensures SentTo(a + b) == SentTo(a) + SentTo(b)
    ensures FailedTo(a + b) == FailedTo(a) + FailedTo(b)
  {
    if b == [] {
      assert a + b == a;
    } else {
      var init := b[..|b| - 1];
      assert (a + b)[..|a + b| - 1] == a + init;
      SentToAppend(a, init);
    }
  }

  /** Appending entries that are neither successes nor send failures, then one more entry. */
  lemma ReportAppend(log: seq<Event>, w: seq<Event>, e: Event)
    requires forall k :: 0 <= k < |w| ==> !w[k].Sent? && !w[k].SendFailed?
    ensures SentTo(log + w + [e]) == SentTo(log) + (if e.Sent? then [e.receiver] else [])
    ensures FailedTo(log + w + [e]) == FailedTo(log) + (if e.SendFailed? then [e.receiver] else [])
  {
    assert (log + w + [e])[..|log + w + [e]| - 1] == log + w;
    NoSendEntries(w);
    SentToAppend(log, w);
    assert log + [] == log;
  }

  /**
   * The success entries the loop writes name the receivers of the accepted messages,
   * and its failure entries those of the refused ones, in the order they were sent.
   */
  lemma {:induction false} EntriesReport(cfg: Config, env: Environment, total: nat, attempts: seq<Attempt>)
    ensures SentTo(Entries(cfg, env, total, attempts)) == AcceptedTo(attempts)
    ensures FailedTo(Entries(cfg, env, total, attempts)) == RejectedTo(attempts)
  {
    if attempts != [] {
      var init := attempts[..|attempts| - 1];
      var last := attempts[|attempts| - 1];
      EntriesReport(cfg, env, total, init);
      ReportAppend(Entries(cfg, env, total, init), Warnings(cfg, env, last.index, last.to), Outcome(last, total));
    }
  }

  /** A log none of whose entries is a success or a send failure. */
  lemma {:induction false} NoSendEntries(log: seq<Event>)
    requires forall k :: 0 <= k < |log| ==> !log[k].Sent? && !log[k].SendFailed?
    ensures SentTo(log) == [] && FailedTo(log) == []
  {
    if log != [] {
      NoSendEntries(log[..|log| - 1]);
    }
  }

  /** Where the cursor can stand after attempts made at consecutive indices from `start` on. */
  lemma {:induction false} CursorAfterBounds(start: nat, attempts: seq<Attempt>)
    requires forall k :: 0 <= k < |attempts| ==> attempts[k].index == start + k
    ensures start <= CursorAfter(start, attempts) <= start + |attempts|
    ensures CursorAfter(start, attempts) == start <==> forall k :: 0 <= k < |attempts| ==> !attempts[k].accepted
  {
    if attempts != [] {
      var init := attempts[..|attempts| - 1];
      CursorAfterBounds(start, init);
      if !attempts[|attempts| - 1].accepted {
        forall k | 0 <= k < |init| ensures init[k] == attempts[k] { }
      }
    }
  }

  /**
   * When every body is missing exactly when the template does not parse, the loop
   * dies, before any send, exactly when it has at least one index to handle and the
   * template does not parse; otherwise it handles every index.
   */
  lemma LoopRuns(cfg: Config, env: Environment, list: seq<string>, bodies: seq<Option<string>>,
                 start: nat, stop: nat, p0: Progress)
    requires start <= stop <= |list| == |bodies|
    requires p0.attempts == [] && !p0.crashed
    requires forall k :: 0 <= k < |bodies| ==> (bodies[k].None? <==> Parse(cfg.body).None?)
    ensures var p := Upto(cfg, env, list, bodies, start, stop, p0);
      (p.crashed <==> Parse(cfg.body).None? && start < stop) &&
      (p.crashed ==> p.attempts == []) &&
      (!p.crashed ==> |p.attempts| == stop - start)
  {
    var p := Upto(cfg, env, list, bodies, start, stop, p0);
    UptoAttempts(cfg, env, list, bodies, start, stop, p0);
    if p.attempts != [] {
      assert bodies[start].Some?;
    }
  }

  /**
   * The send loop of a run that logged in makes one attempt per index of the batch
   * window, in order; when the body cannot be rendered it dies before the first send.
   */
  lemma BatchAttempts(cursor: nat, cfg: Config, env: Environment, list: seq<string>, file: string)
    requires cursor < |list|
    ensures var p := Batch(cursor, cfg, env, list, file);
      Orderly(cfg, env, list, Bodies(cfg.body, list), cursor, p.attempts) &&
      (p.crashed <==> Parse(cfg.body).None? && BatchSize(cursor, Stopper(cfg), |list|) > 0) &&
      (p.crashed ==> p.attempts == []) &&
      (!p.crashed ==> |p.attempts| == BatchSize(cursor, Stopper(cfg), |list|))
  {
    var bodies := Bodies(cfg.body, list);
    var stop := LoopStop(cursor, BatchEnd(cursor, Stopper(cfg), |list|));
    var p0 := Progress(cursor, Opening(cursor, Stopper(cfg), file, |list|), [], false);
    assert stop - cursor == BatchSize(cursor, Stopper(cfg), |list|);
    UptoAttempts(cfg, env, list, bodies, cursor, stop, p0);
    LoopRuns(cfg, env, list, bodies, cursor, stop, p0);
  }

  /** The cursor a logged-in run leaves is the one its attempts determine. */
  lemma BatchCursor(cursor: nat, cfg: Config, env: Environment, list: seq<string>, file: string)
    requires cursor < |list|
    ensures var p := Batch(cursor, cfg, env, list, file); p.cursor == CursorAfter(cursor, p.attempts)
  {
    var bodies := Bodies(cfg.body, list);
    var stop := LoopStop(cursor, BatchEnd(cursor, Stopper(cfg), |list|));
    var p0 := Progress(cursor, Opening(cursor, Stopper(cfg), file, |list|), [], false);
    UptoCursor(cfg, env, list, bodies, cursor, stop, p0);
  }

  /** The log of a logged-in run's loop: the opening entries, then the entries of each attempt. */
  lemma BatchLog(cursor: nat, cfg: Config, env: Environment, list: seq<string>, file: string)
    requires cursor < |list|
    ensures var p := Batch(cursor, cfg, env, list, file);
      p.log == Opening(cursor, Stopper(cfg), file, |list|) + Entries(cfg, env, |list|, p.attempts)
  {
    var bodies := Bodies(cfg.body, list);
    var stop := LoopStop(cursor, BatchEnd(cursor, Stopper(cfg), |list|));
    var p0 := Progress(cursor, Opening(cursor, Stopper(cfg), file, |list|), [], false);
    UptoLog(cfg, env, list, bodies, cursor, stop, p0);
  }

  /** An accepted message leaves the cursor past it. */
  lemma {:induction false} CursorPastAccepted(start: nat, attempts: seq<Attempt>, j: nat)
    requires forall k :: 0 <= k < |attempts| ==> attempts[k].index == start + k
    requires j < |attempts| && attempts[j].accepted
    ensures CursorAfter(start, attempts) > attempts[j].index
  {
    var init := attempts[..|attempts| - 1];
    if j < |init| && !attempts[|attempts| - 1].accepted {
      CursorPastAccepted(start, init, j);
    }
  }

  // ------------------------------------------------------------ properties of a run

  /** A run that gets as far as the recipient list is the delivery to that list. */
  lemma RunDelivers(cursor: nat, cfg: Config, env: Environment, list: seq<string>)
    requires Configured(cfg) && ListOf(env) == Some(list)
    ensures Run(cursor, cfg, env) == Deliver(cursor, cfg, env, list, cfg.file.value)
  {
  }

  /**
   * The run sends nothing and leaves the cursor alone exactly when it stops early:
   * configuration missing, list unreadable or without an email column, every recipient
   * already reached, or the login refused; such a run logs no success and no failure.
   */
  lemma RunAborts(cursor: nat, cfg: Config, env: Environment)
    ensures var r := Run(cursor, cfg, env);
      (!r.session.loggedIn <==>
         !Configured(cfg) || ListOf(env).None? || cursor >= |ListOf(env).value| || !env.loginOk) &&
      (!r.session.loggedIn ==>
         r.cursor == cursor && r.session == NO_SESSION && SentTo(r.log) == [] && FailedTo(r.log) == [])
  {
    var r := Run(cursor, cfg, env);
    if Configured(cfg) && ListOf(env).Some? {
      RunDelivers(cursor, cfg, env, ListOf(env).value);
    }
    if !r.session.loggedIn {
      NoSendEntries(r.log);
    }
  }

  /**
   * A configured run reports a load failure, and nothing else, exactly when the list
   * file cannot be read or `.str.strip()` raises on its email column.
   */
  lemma RunLoadFails(cursor: nat, cfg: Config, env: Environment)
    ensures Run(cursor, cfg, env).log == [Started, LoadFailed] <==>
              Configured(cfg) && (env.table.None? || StripRaises(env.table.value))
  {
    if Configured(cfg) && ListOf(env).Some? {
      var list := ListOf(env).value;
      RunDelivers(cursor, cfg, env, list);
      DeliverLoaded(cursor, cfg, env, list, cfg.file.value);
    }
  }

  /** A run that has loaded `list` logs how many addresses it loaded, right after the start entry. */
  lemma DeliverLoaded(cursor: nat, cfg: Config, env: Environment, list: seq<string>, file: string)
    ensures var r := Deliver(cursor, cfg, env, list, file); |r.log| >= 2 && r.log[1] == Loaded(|list|, file)
  {
    if cursor < |list| && env.loginOk {
      DeliverLog(cursor, cfg, env, list, file);
    }
  }

  /** An email column with one row and no value is a load failure, not an empty list. */
  lemma NoValueColumnFails(cfg: Config, env: Environment)
    requires Configured(cfg) && env.table == Some(Table([Column("Email", [None])]))
    ensures Run(0, cfg, env) == RunResult(0, [Started, LoadFailed], NO_SESSION)
  {
    EmailColumnWithoutValue();
  }

  /**
   * What a run that has loaded `list` sends: one message per index from the cursor on,
   * within the window, with the rendered body for each recipient.
   */
  lemma DeliverWindow(cursor: nat, cfg: Config, env: Environment, list: seq<string>, file: string)
    ensures var r := Deliver(cursor, cfg, env, list, file); r.session.attempts != [] ==> cursor + |r.session.attempts| <= |list|
    ensures var r := Deliver(cursor, cfg, env, list, file); |r.session.attempts| <= BatchSize(cursor, Stopper(cfg), |list|)
    ensures var r := Deliver(cursor, cfg, env, list, file);
      r.session.loggedIn && !r.session.crashed ==> |r.session.attempts| == BatchSize(cursor, Stopper(cfg), |list|)
    ensures var r := Deliver(cursor, cfg, env, list, file); Orderly(cfg, env, list, Bodies(cfg.body, list), cursor, r.session.attempts)
  {
    if cursor < |list| && env.loginOk {
      BatchAttempts(cursor, cfg, env, list, file);
    }
  }

  /** The cursor a run that has loaded `list` leaves, and the indices it sends to. */
  lemma DeliverCursor(cursor: nat, cfg: Config, env: Environment, list: seq<string>, file: string)
    ensures var r := Deliver(cursor, cfg, env, list, file);
      r.cursor == CursorAfter(cursor, r.session.attempts) &&
      forall k :: 0 <= k < |r.session.attempts| ==> r.session.attempts[k].index == cursor + k
  {
    if cursor < |list| && env.loginOk {
      BatchCursor(cursor, cfg, env, list, file);
      BatchIndices(cursor, cfg, env, list, file);
    }
  }

  /** Every run leaves the cursor where its attempts put it; they are at consecutive indices from the cursor on. */
  lemma RunCursorAfter(cursor: nat, cfg: Config, env: Environment)
    ensures var r := Run(cursor, cfg, env);
      r.cursor == CursorAfter(cursor, r.session.attempts) &&
      forall k :: 0 <= k < |r.session.attempts| ==> r.session.attempts[k].index == cursor + k
  {
    if Configured(cfg) && ListOf(env).Some? {
      RunDelivers(cursor, cfg, env, ListOf(env).value);
      DeliverCursor(cursor, cfg, env, ListOf(env).value, cfg.file.value);
    }
  }

  /**
   * The batch window: a run sends to consecutive recipients starting at the cursor, at
   * most `stopper` of them and never past the end of the list, each with the configured
   * subject, the template rendered with that recipient's greeting, the resume whenever
   * it is available, and the answer the server gives for that index; a run that logs in
   * and does not die reaches the whole window.
   */
  lemma RunWindow(cursor: nat, cfg: Config, env: Environment, list: seq<string>)
    requires ListOf(env) == Some(list)
    ensures var r := Run(cursor, cfg, env);
      var a := r.session.attempts;
      (a != [] ==> cursor + |a| <= |list|) && |a| <= BatchSize(cursor, Stopper(cfg), |list|) &&
      (r.session.loggedIn && !r.session.crashed ==> |a| == BatchSize(cursor, Stopper(cfg), |list|)) &&
      forall k :: 0 <= k < |a| ==>
        a[k].index == cursor + k && a[k].to == list[cursor + k] && a[k].subject == cfg.subject &&
        Render(cfg.body, Greeting(a[k].to)) == Some(a[k].body) &&
        a[k].attached == Attached(cfg, env, cursor + k) && a[k].accepted == env.accepts(cursor + k)
  {
    var r := Run(cursor, cfg, env);
    var a := r.session.attempts;
    if Configured(cfg) {
      RunDelivers(cursor, cfg, env, list);
      DeliverWindow(cursor, cfg, env, list, cfg.file.value);
      var bodies := Bodies(cfg.body, list);
      forall k | 0 <= k < |a|
        ensures Render(cfg.body, Greeting(a[k].to)) == Some(a[k].body)
      {
        assert bodies[cursor + k] == Render(cfg.body, Greeting(list[cursor + k]));
      }
    }
  }

  /**
   * With no saved stopper, a run that logs in and does not die sends to the next 100
   * recipients, or to the rest of the list when fewer remain.
   */
  lemma DefaultBatch(cursor: nat, cfg: Config, env: Environment, list: seq<string>)
    requires ListOf(env) == Some(list) && cfg.stopper.None?
    ensures var s := Run(cursor, cfg, env).session;
      s.loggedIn && !s.crashed ==>
        |s.attempts| == (if |list| - cursor < DEFAULT_STOPPER then |list| - cursor else DEFAULT_STOPPER)
  {
    RunAborts(cursor, cfg, env);
    RunWindow(cursor, cfg, env, list);
  }

  /**
   * The cursor rule: the cursor never moves back and, in total, moves at most one place
   * per message sent; it stays put exactly when no message was accepted, lies past every
   * accepted message, and sits right after the last accepted one, whatever failed
   * after or before it.
   */
  lemma RunCursor(cursor: nat, cfg: Config, env: Environment)
    ensures var r := Run(cursor, cfg, env);
      var a := r.session.attempts;
      cursor <= r.cursor <= cursor + |a| &&
      (r.cursor == cursor <==> forall k :: 0 <= k < |a| ==> !a[k].accepted) &&
      (forall k :: 0 <= k < |a| && a[k].accepted ==> r.cursor > a[k].index) &&
      (forall k :: 0 <= k < |a| && LastAccepted(a, k) ==> r.cursor == a[k].index + 1)
  {
    var r := Run(cursor, cfg, env);
    var a := r.session.attempts;
    RunCursorAfter(cursor, cfg, env);
    CursorAfterBounds(cursor, a);
    CursorAfterRule(cursor, a);
    forall k | 0 <= k < |a| && a[k].accepted
      ensures r.cursor > a[k].index
    {
      CursorPastAccepted(cursor, a, k);
    }
  }

  /** The attempts of a logged-in run's loop are at consecutive indices from the cursor on. */
  lemma BatchIndices(cursor: nat, cfg: Config, env: Environment, list: seq<string>, file: string)
    requires cursor < |list|
    ensures var p := Batch(cursor, cfg, env, list, file);
      forall k :: 0 <= k < |p.attempts| ==> p.attempts[k].index == cursor + k
  {
    BatchAttempts(cursor, cfg, env, list, file);
  }

  /**
   * The log of a run that logged in: the opening entries, then for each message the
   * resume warnings and its outcome, then the closing entry when the session was closed.
   */
  lemma DeliverLog(cursor: nat, cfg: Config, env: Environment, list: seq<string>, file: string)
    requires cursor < |list| && env.loginOk
    ensures var r := Deliver(cursor, cfg, env, list, file);
      r.log == Opening(cursor, Stopper(cfg), file, |list|) + Entries(cfg, env, |list|, r.session.attempts)
               + (if r.session.quit then [Finished] else [])
  {
    BatchLog(cursor, cfg, env, list, file);
    var p := Batch(cursor, cfg, env, list, file);
    if p.crashed {
      assert p.log + [] == p.log;
    }
  }

  /** What the log of a run that logged in reports. */
  lemma DeliverReport(cursor: nat, cfg: Config, env: Environment, list: seq<string>, file: string)
    requires cursor < |list| && env.loginOk
    ensures var r := Deliver(cursor, cfg, env, list, file);
      |r.log| >= 2 && r.log[0] == Started && (r.session.quit ==> r.log[|r.log| - 1] == Finished)
    ensures var r := Deliver(cursor, cfg, env, list, file);
      SentTo(r.log) == AcceptedTo(r.session.attempts) && FailedTo(r.log) == RejectedTo(r.session.attempts)
  {
    DeliverLog(cursor, cfg, env, list, file);
    LogReport(cfg, env, |list|, Opening(cursor, Stopper(cfg), file, |list|), Deliver(cursor, cfg, env, list, file));
  }

  /** What a log made of the opening entries, the loop's entries and the closing entry reports. */
  lemma LogReport(cfg: Config, env: Environment, total: nat, opening: seq<Event>, r: RunResult)
    requires |opening| >= 2 && forall k :: 0 <= k < |opening| ==> !opening[k].Sent? && !opening[k].SendFailed?
    requires r.log == opening + Entries(cfg, env, total, r.session.attempts) + (if r.session.quit then [Finished] else [])
    ensures |r.log| >= 2 && r.log[0] == opening[0] && (r.session.quit ==> r.log[|r.log| - 1] == Finished)
    ensures SentTo(r.log) == AcceptedTo(r.session.attempts) && FailedTo(r.log) == RejectedTo(r.session.attempts)
  {
    var closing: seq<Event> := if r.session.quit then [Finished] else [];
    LoopReport(cfg, env, total, opening, r.session.attempts, closing);
    assert r.log[0] == opening[0];
  }

  /** The report of a log made of opening entries, the loop's entries and closing entries. */
  lemma LoopReport(cfg: Config, env: Environment, total: nat, opening: seq<Event>, attempts: seq<Attempt>, closing: seq<Event>)
    requires forall k :: 0 <= k < |opening| ==> !opening[k].Sent? && !opening[k].SendFailed?
    requires forall k :: 0 <= k < |closing| ==> !closing[k].Sent? && !closing[k].SendFailed?
    ensures SentTo(opening + Entries(cfg, env, total, attempts) + closing) == AcceptedTo(attempts)
    ensures FailedTo(opening + Entries(cfg, env, total, attempts) + closing) == RejectedTo(attempts)
  {
    EntriesReport(cfg, env, total, attempts);
    ReportParts(opening, Entries(cfg, env, total, attempts), closing);
  }

  /** Entries before and after that are neither successes nor send failures add nothing to the report. */
  lemma ReportParts(before: seq<Event>, entries: seq<Event>, after: seq<Event>)
    requires forall k :: 0 <= k < |before| ==> !before[k].Sent? && !before[k].SendFailed?
    requires forall k :: 0 <= k < |after| ==> !after[k].Sent? && !after[k].SendFailed?
    ensures SentTo(before + entries + after) == SentTo(entries)
    ensures FailedTo(before + entries + after) == FailedTo(entries)
  {
    NoSendEntries(before);
    NoSendEntries(after);
    SentToAppend(before, entries);
    SentToAppend(before + entries, after);
    assert [] + SentTo(entries) + [] == SentTo(entries);
    assert [] + FailedTo(entries) + [] == FailedTo(entries);
  }

  /**
   * The log of every run starts with the start entry, holds one success entry per
   * accepted message and one failure entry per refused one, in sending order, and ends
   * with the closing entry when the session was closed.
   */
  lemma RunLog(cursor: nat, cfg: Config, env: Environment)
    ensures var r := Run(cursor, cfg, env);
      var a := r.session.attempts;
      |r.log| >= 2 && r.log[0] == Started && Message(r.log[0]) == "Email sending process started." &&
      SentTo(r.log) == AcceptedTo(a) && FailedTo(r.log) == RejectedTo(a) &&
      (r.session.quit ==> r.log[|r.log| - 1] == Finished)
  {
    var r := Run(cursor, cfg, env);
    RunAborts(cursor, cfg, env);
    if r.session.loggedIn {
      RunDelivers(cursor, cfg, env, ListOf(env).value);
      DeliverReport(cursor, cfg, env, ListOf(env).value, cfg.file.value);
    } else {
      RunStarts(cursor, cfg, env);
    }
  }

  /** A run that does not log in writes at least two entries, the first being the start entry, and does not quit. */
  lemma RunStarts(cursor: nat, cfg: Config, env: Environment)
    requires !Run(cursor, cfg, env).session.loggedIn
    ensures var r := Run(cursor, cfg, env); |r.log| >= 2 && r.log[0] == Started && !r.session.quit
  {
    if Configured(cfg) && ListOf(env).Some? {
      RunDelivers(cursor, cfg, env, ListOf(env).value);
    }
  }

  /**
   * A run that logged in closes the session exactly when it did not die; it dies exactly
   * when its window is not empty and the template does not parse, and then it has sent
   * nothing and left the cursor alone.
   */
  lemma RunCrash(cursor: nat, cfg: Config, env: Environment, list: seq<string>)
    requires ListOf(env) == Some(list)
    ensures var r := Run(cursor, cfg, env);
      (r.session.quit <==> r.session.loggedIn && !r.session.crashed) &&
      (r.session.crashed <==>
         r.session.loggedIn && Parse(cfg.body).None? && BatchSize(cursor, Stopper(cfg), |list|) > 0) &&
      (r.session.crashed ==> r.session.attempts == [] && r.cursor == cursor)
  {
    if Configured(cfg) {
      RunDelivers(cursor, cfg, env, list);
      if cursor < |list| && env.loginOk {
        BatchAttempts(cursor, cfg, env, list, cfg.file.value);
        BatchCursor(cursor, cfg, env, list, cfg.file.value);
      }
    }
  }

  /**
   * Once the cursor has reached the end of the list, a run only reports that everything
   * was sent: it neither logs in nor moves the cursor, so running again changes nothing.
   */
  lemma RunExhausted(cursor: nat, cfg: Config, env: Environment, list: seq<string>)
    requires Configured(cfg) && ListOf(env) == Some(list) && cursor >= |list|
    ensures Run(cursor, cfg, env) == RunResult(cursor, [Started, Loaded(|list|, cfg.file.value), AllSent], NO_SESSION)
    ensures Run(Run(cursor, cfg, env).cursor, cfg, env) == Run(cursor, cfg, env)
  {
    RunDelivers(cursor, cfg, env, list);
  }

  /** Started inside the list, the cursor stays inside the list and inside the batch window. */
  lemma RunCursorBounds(cursor: nat, cfg: Config, env: Environment, list: seq<string>)
    requires ListOf(env) == Some(list) && cursor <= |list|
    ensures var r := Run(cursor, cfg, env);
      cursor <= r.cursor <= |list| && r.cursor <= cursor + BatchSize(cursor, Stopper(cfg), |list|)
  {
    RunCursor(cursor, cfg, env);
    RunWindow(cursor, cfg, env, list);
  }

  /**
   * A failed recipient is skipped for good once a later message of the same batch is
   * accepted: the cursor moves past both, and the next run starts after them.
   */
  lemma SkipPastFailure(cursor: nat, cfg: Config, env: Environment, list: seq<string>)
    requires Configured(cfg) && ListOf(env) == Some(list) && env.loginOk && Parse(cfg.body).Some?
    requires cursor + 2 <= |list| && Stopper(cfg) >= 2
    requires !env.accepts(cursor) && env.accepts(cursor + 1)
    ensures var r := Run(cursor, cfg, env);
      |r.session.attempts| >= 2 && r.session.attempts[0].to == list[cursor] && !r.session.attempts[0].accepted &&
      r.cursor >= cursor + 2
    ensures var next := Run(Run(cursor, cfg, env).cursor, cfg, env).session.attempts;
      forall k :: 0 <= k < |next| ==> next[k].index >= cursor + 2
  {
    var r := Run(cursor, cfg, env);
    RunAborts(cursor, cfg, env);
    RunCrash(cursor, cfg, env, list);
    RunWindow(cursor, cfg, env, list);
    RunCursor(cursor, cfg, env);
    assert r.session.attempts[1].accepted;
    RunWindow(r.cursor, cfg, env, list);
  }

  /**
   * Three recipients, a stopper of 2, every message accepted: the first run sends to
   * the first two and leaves the cursor at 2.
   */
  lemma ThreeRecipientsFirstRun(cfg: Config, env: Environment, list: seq<string>)
    requires Configured(cfg) && ListOf(env) == Some(list) && |list| == 3 && cfg.stopper == Some(2)
    requires env.loginOk && Parse(cfg.body).Some? && forall i :: env.accepts(i)
    ensures var r := Run(0, cfg, env);
      r.cursor == 2 && |r.session.attempts| == 2 &&
      r.session.attempts[0].to == list[0] && r.session.attempts[1].to == list[1]
  {
    assert BatchSize(0, Stopper(cfg), |list|) == 2;
    CampaignPair(0, cfg, env, list);
  }

  /** A campaign run whose window holds two recipients sends to them both and moves the cursor past them. */
  lemma CampaignPair(cursor: nat, cfg: Config, env: Environment, list: seq<string>)
    requires Configured(cfg) && ListOf(env) == Some(list) && cursor < |list|
    requires env.loginOk && Parse(cfg.body).Some? && forall i :: env.accepts(i)
    requires BatchSize(cursor, Stopper(cfg), |list|) == 2
    ensures var r := Run(cursor, cfg, env);
      r.cursor == cursor + 2 && |r.session.attempts| == 2 &&
      r.session.attempts[0].to == list[cursor] && r.session.attempts[1].to == list[cursor + 1]
  {
    CampaignRun(cursor, cfg, env, list);
    var a := Run(cursor, cfg, env).session.attempts;
    assert a[0].to == list[cursor + 0];
  }

  /** In the same campaign the second run sends to the third recipient and leaves the cursor at 3. */
  lemma ThreeRecipientsSecondRun(cfg: Config, env: Environment, list: seq<string>)
    requires Configured(cfg) && ListOf(env) == Some(list) && |list| == 3 && cfg.stopper == Some(2)
    requires env.loginOk && Parse(cfg.body).Some? && forall i :: env.accepts(i)
    ensures var r := Run(2, cfg, env);
      r.cursor == 3 && |r.session.attempts| == 1 && r.session.attempts[0].to == list[2]
  {
    CampaignRun(2, cfg, env, list);
  }

  /** In the same campaign a third run, started at 3, only reports that everything was sent. */
  lemma ThreeRecipientsThirdRun(cfg: Config, env: Environment, list: seq<string>)
    requires Configured(cfg) && ListOf(env) == Some(list) && |list| == 3
    ensures Run(3, cfg, env) == RunResult(3, [Started, Loaded(3, cfg.file.value), AllSent], NO_SESSION)
  {
    RunExhausted(3, cfg, env, list);
  }

  /**
   * A run whose subject and body `start_sending` took from a built-in template never
   * dies in the loop, and every message it sends carries that template's subject and
   * opens with the greeting for its receiver.
   */
  lemma BuiltInRunGreets(cursor: nat, cfg: Config, env: Environment, saved: SavedTemplate)
    requires UsesBuiltIn(saved) && cfg.subject == Resolve(saved).subject && cfg.body == Resolve(saved).body
    ensures var r := Run(cursor, cfg, env);
      var a := r.session.attempts;
      !r.session.crashed && (r.session.loggedIn ==> r.session.quit) &&
      forall k :: 0 <= k < |a| ==> a[k].subject == cfg.subject && Greeting(a[k].to) <= a[k].body
  {
    var r := Run(cursor, cfg, env);
    var a := r.session.attempts;
    var name := SavedName(saved);
    BuiltInsRender(name, []);
    if ListOf(env).Some? {
      var list := ListOf(env).value;
      RunCrash(cursor, cfg, env, list);
      RunWindow(cursor, cfg, env, list);
      forall k | 0 <= k < |a|
        ensures Greeting(a[k].to) <= a[k].body
      {
        BuiltInsRender(name, Greeting(a[k].to));
      }
    } else {
      RunAborts(cursor, cfg, env);
    }
  }

  /** A logged-in run whose every message is accepted ends with the cursor at the end of its window. */
  lemma CampaignRun(cursor: nat, cfg: Config, env: Environment, list: seq<string>)
    requires Configured(cfg) && ListOf(env) == Some(list) && cursor < |list|
    requires env.loginOk && Parse(cfg.body).Some? && forall i :: env.accepts(i)
    ensures var r := Run(cursor, cfg, env);
      |r.session.attempts| == BatchSize(cursor, Stopper(cfg), |list|) &&
      r.cursor == cursor + BatchSize(cursor, Stopper(cfg), |list|) &&
      forall k :: 0 <= k < |r.session.attempts| ==> r.session.attempts[k].to == list[cursor + k]
  {
    var r := Run(cursor, cfg, env);
    var a := r.session.attempts;
    RunAborts(cursor, cfg, env);
    RunCrash(cursor, cfg, env, list);
    RunWindow(cursor, cfg, env, list);
    RunCursor(cursor, cfg, env);
    if a != [] {
      assert LastAccepted(a, |a| - 1);
    }
  }

  /** The success, failure and attachment entries name their receiver. */
  lemma MessageNamesReceiver(e: Event)
    requires e.Sent? || e.SendFailed? || e.AttachFailed?
    ensures Contains(Message(e), e.receiver)
  {
    var prefix := match e
      case Sent(_, _, _) => "SUCCESS: Email sent to "
      case SendFailed(_) => "ERROR sending to "
      case AttachFailed(_) => "Warning: Could not attach resume for ";
    var m := Message(e);
    assert m[|prefix|..|prefix| + |e.receiver|] == e.receiver;
    assert OccursAt(m, e.receiver, |prefix|);
    ContainsIsSubstring(m, e.receiver);
  }
}
