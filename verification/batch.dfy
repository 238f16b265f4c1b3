/** The installation batch of stage 3: every selected tool is installed in
    turn and its name lands in the successful or the failed list. */
module Batch {
  import opened Sequences
  import opened Manifest
  import opened Installer

  /** What one `install_tool` call did: it returned a truth value, or it
      raised (a missing key, an error inside the download). */
  datatype Attempt = Returned(ok: bool) | Raised

  /** Only a returned `True` counts as a success; `False` and a raised
      exception both count as failures. */
  predicate Succeeded(a: Attempt) {
    a.Returned? && a.ok
  }

  datatype Summary = Summary(successful: seq<string>, failed: seq<string>)

  function Names(tools: seq<Tool>): (r: seq<string>)
    ensures |r| == |tools|
  {
    seq(|tools|, i requires 0 <= i < |tools| => tools[i].name)
  }

  /** The attempt made for each position of the batch; the position is passed
      to the oracle so that two calls for equal records may differ. */
  function Attempts(tools: seq<Tool>, install: (nat, Tool) -> Attempt): (r: seq<Attempt>)
    ensures |r| == |tools|
    ensures forall i :: 0 <= i < |tools| ==> r[i] == install(i, tools[i])
  {
    seq(|tools|, i requires 0 <= i < |tools| => install(i, tools[i]))
  }

  /** The entry one tool adds to the end of the lists. */
  function Record(s: Summary, t: Tool, a: Attempt): Summary {
    if Succeeded(a) then Summary(s.successful + [t.name], s.failed)
    else Summary(s.successful, s.failed + [t.name])
  }

  /** The lists after the first `n` tools of the batch. */
  function Tally(tools: seq<Tool>, attempts: seq<Attempt>, n: nat): (s: Summary)
    requires |attempts| == |tools| && n <= |tools|
    ensures |s.successful| + |s.failed| == n
    decreases n
  {
    if n == 0 then Summary([], [])
    else Record(Tally(tools, attempts, n - 1), tools[n - 1], attempts[n - 1])
  }

  /** The lists after the whole batch. */
  function Summarize(tools: seq<Tool>, attempts: seq<Attempt>): (s: Summary)
    requires |attempts| == |tools|
    ensures |s.successful| + |s.failed| == |tools|
  {
    Tally(tools, attempts, |tools|)
  }

  /** The positions among the first `n` whose attempt succeeded (`want`)
      or failed (`!want`), in increasing order. */
  function Positions(attempts: seq<Attempt>, n: nat, want: bool): (r: seq<nat>)
    requires n <= |attempts|
    ensures forall k :: 0 <= k < |r| ==> r[k] < n
    decreases n
  {
    if n == 0 then []
    else if Succeeded(attempts[n - 1]) == want then Positions(attempts, n - 1, want) + [n - 1]
    else Positions(attempts, n - 1, want)
  }

  lemma {:induction false} PositionsExact(attempts: seq<Attempt>, n: nat, want: bool)
    requires n <= |attempts|
    ensures forall i :: 0 <= i < n ==> (Succeeded(attempts[i]) == want <==> i in Positions(attempts, n, want))
    decreases n
  {
    if n > 0 {
      PositionsExact(attempts, n - 1, want);
      var before := Positions(attempts, n - 1, want);
      assert n - 1 !in before;
    }
  }

  /** The successful list is the batch's names at the successful positions,
      in order, and the failed list likewise. */
  lemma {:induction false} TallyOrder(tools: seq<Tool>, attempts: seq<Attempt>, n: nat)
    requires |attempts| == |tools| && n <= |tools|
    ensures Embeds(Tally(tools, attempts, n).successful, Names(tools), Positions(attempts, n, true))
    ensures Embeds(Tally(tools, attempts, n).failed, Names(tools), Positions(attempts, n, false))
    decreases n
  {
    if n > 0 {
      TallyOrder(tools, attempts, n - 1);
      var before := Tally(tools, attempts, n - 1);
      var names := Names(tools);
      assert names[n - 1] == tools[n - 1].name;
      if Succeeded(attempts[n - 1]) {
        EmbedsSnoc(before.successful, names, Positions(attempts, n - 1, true), n - 1);
      } else {
        EmbedsSnoc(before.failed, names, Positions(attempts, n - 1, false), n - 1);
      }
    }
  }

  /** The whole batch: every position is listed, in exactly the list its
      attempt decides, and both lists keep the batch order. */
  lemma SummarizeOrder(tools: seq<Tool>, attempts: seq<Attempt>)
    returns (successes: seq<nat>, failures: seq<nat>)
    requires |attempts| == |tools|
    ensures Embeds(Summarize(tools, attempts).successful, Names(tools), successes)
    ensures Embeds(Summarize(tools, attempts).failed, Names(tools), failures)
    ensures forall i :: 0 <= i < |tools| ==> (Succeeded(attempts[i]) <==> i in successes)
    ensures forall i :: 0 <= i < |tools| ==> (!Succeeded(attempts[i]) <==> i in failures)
  {
    successes, failures := Positions(attempts, |tools|, true), Positions(attempts, |tools|, false);
    TallyOrder(tools, attempts, |tools|);
    PositionsExact(attempts, |tools|, true);
    PositionsExact(attempts, |tools|, false);
  }

  /** The names in the two lists are, together, the names of the batch:
      nothing is lost and nothing is listed twice. */
  lemma {:induction false} TallyNames(tools: seq<Tool>, attempts: seq<Attempt>, n: nat)
    requires |attempts| == |tools| && n <= |tools|
    ensures var s := Tally(tools, attempts, n);
      forall x :: multiset(s.successful)[x] + multiset(s.failed)[x] == multiset(Names(tools)[..n])[x]
    decreases n
  {
    if n > 0 {
      TallyNames(tools, attempts, n - 1);
      var names := Names(tools);
      var before := Tally(tools, attempts, n - 1);
      assert Tally(tools, attempts, n) == Record(before, tools[n - 1], attempts[n - 1]);
      assert names[..n] == names[..n - 1] + [tools[n - 1].name];
    }
  }

  /** How the first `n` tools are listed depends on their own attempts
      only, never on what happens to the tools after them. */
  lemma {:induction false} TallyPrefix(tools: seq<Tool>, attempts: seq<Attempt>, other: seq<Attempt>, n: nat)
    requires |attempts| == |tools| && |other| == |tools| && n <= |tools|
    requires attempts[..n] == other[..n]
    ensures Tally(tools, attempts, n) == Tally(tools, other, n)
    decreases n
  {
    if n > 0 {
      assert attempts[n - 1] == attempts[..n][n - 1] == other[n - 1];
      assert attempts[..n - 1] == attempts[..n][..n - 1];
      assert other[..n - 1] == other[..n][..n - 1];
      TallyPrefix(tools, attempts, other, n - 1);
    }
  }

  /** The lists are only ever appended to: an entry, once made, is kept
      when later tools are installed, and the later tools are still listed
      after it whatever it was. */
  lemma {:induction false} TallyExtends(tools: seq<Tool>, attempts: seq<Attempt>, n: nat, m: nat)
    requires |attempts| == |tools| && n <= m <= |tools|
    ensures var a, b := Tally(tools, attempts, n), Tally(tools, attempts, m);
      && |a.successful| <= |b.successful| && b.successful[..|a.successful|] == a.successful
      && |a.failed| <= |b.failed| && b.failed[..|a.failed|] == a.failed
      && |b.successful| + |b.failed| == |a.successful| + |a.failed| + (m - n)
    decreases m - n
  {
    if n < m {
      TallyExtends(tools, attempts, n, m - 1);
      var a, c := Tally(tools, attempts, n), Tally(tools, attempts, m - 1);
      var b := Tally(tools, attempts, m);
      assert b.successful[..|c.successful|] == c.successful;
      assert b.failed[..|c.failed|] == c.failed;
      assert b.successful[..|a.successful|] == c.successful[..|a.successful|];
      assert b.failed[..|a.failed|] == c.failed[..|a.failed|];
    }
  }

  /** Over the whole batch, the two lists hold exactly the batch's names. */
  lemma SummarizeNames(tools: seq<Tool>, attempts: seq<Attempt>)
    requires |attempts| == |tools|
    ensures var s := Summarize(tools, attempts);
      multiset(s.successful) + multiset(s.failed) == multiset(Names(tools))
  {
    TallyNames(tools, attempts, |tools|);
    assert Names(tools)[..|tools|] == Names(tools);
  }

  /** The loop of `install_selected_apps_thread`: each tool is installed in
      order and its name appended to one of the two lists; an exception is
      caught and counts as a failure, so the loop always runs to the end. */
  method RunBatch(tools: seq<Tool>, install: (nat, Tool) -> Attempt) returns (s: Summary)
    ensures s == Summarize(tools, Attempts(tools, install))
  {
    ghost var attempts := Attempts(tools, install);
    var successful: seq<string> := [];
    var failed: seq<string> := [];
    var i := 0;
    while i < |tools|
      invariant i <= |tools|
      invariant Summary(successful, failed) == Tally(tools, attempts, i)
    {
      var attempt := install(i, tools[i]);
      if Succeeded(attempt) {
        successful := successful + [tools[i].name];
      } else {
        failed := failed + [tools[i].name];
      }
      i := i + 1;
    }
    s := Summary(successful, failed);
  }

  /** The attempt `install_tool` makes in the model: it never raises, and
      returns the plan's verdict; `envAt(i)` is the I/O seen by position `i`. */
  function Installs(folder: string, silent: bool, envAt: nat -> Env): (nat, Tool) -> Attempt {
    (i: nat, t: Tool) => Returned(PlanInstall(t, folder, silent, envAt(i)).ok)
  }

  /** With the modelled `install_tool`, position `j` is listed as successful
      exactly when its installer was started and exited with 0, and as
      failed otherwise; the lists keep the batch order. */
  lemma PipelineOutcome(tools: seq<Tool>, folder: string, silent: bool, envAt: nat -> Env)
    returns (successes: seq<nat>, failures: seq<nat>)
    ensures var s := Summarize(tools, Attempts(tools, Installs(folder, silent, envAt)));
      && Embeds(s.successful, Names(tools), successes)
      && Embeds(s.failed, Names(tools), failures)
    ensures forall j :: 0 <= j < |tools| ==>
      var p := PlanInstall(tools[j], folder, silent, envAt(j));
      && (j in successes <==> p.command.Some? && envAt(j).run(p.command.value) == Exited(0))
      && (j in failures <==> !(p.command.Some? && envAt(j).run(p.command.value) == Exited(0)))
  {
    var attempts := Attempts(tools, Installs(folder, silent, envAt));
    successes, failures := SummarizeOrder(tools, attempts);
    forall j | 0 <= j < |tools|
      ensures Succeeded(attempts[j]) <==> PlanInstall(tools[j], folder, silent, envAt(j)).ok
    {
      assert attempts[j] == Installs(folder, silent, envAt)(j, tools[j]);
    }
  }

  /** One dynamic tool whose download works: it is listed as successful when
      its installer exits with 0 and as failed for any other status. */
  lemma SingleDynamicTool(t: Tool, folder: string, silent: bool, env: Env)
    requires KindOf(t) == Dynamic
    requires env.download(t.url, DefaultPath(t, folder))
    ensures var code := env.run(Command(InferExt(t.url), DefaultPath(t, folder), silent, t.silentArgs));
      Summarize([t], [Returned(PlanInstall(t, folder, silent, env).ok)]) ==
        if code == Exited(0) then Summary([t.name], []) else Summary([], [t.name])
  {
  }
}
