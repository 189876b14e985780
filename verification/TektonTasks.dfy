/** Defaulting the Tekton tasks of a System resource (api/v1alpha1/system_types.go). */
module TektonTasks {
  import opened Text

  datatype EnvVar = EnvVar(name: string, value: string)

  datatype Image = Image(name: Option<string>, tag: Option<string>, pullSecret: Option<string>,
                         pullPolicy: Option<string>)

  datatype Config = Config(image: Option<Image>, command: seq<string>, args: seq<string>, extraEnv: seq<EnvVar>,
                           timeout: Option<int>)

  datatype Task = Task(name: string, description: Option<string>, enabled: Option<bool>, config: Option<Config>)

  const EMPTY_CONFIG := Config(None, [], [], [], None)
  const ECHO := ["echo"]
  const NOT_SET := ["Step command not set."]
  const TASKS_TIMEOUT := 3 * 3_600_000

  function Or<T>(value: Option<T>, def: Option<T>): Option<T> { if value.None? then def else value }

  function OrSlice(value: seq<string>, def: seq<string>): seq<string> { if value == [] then def else value }

  // ---------- merging a configuration ----------

  predicate HasName(env: seq<EnvVar>, name: string) {
    exists i :: 0 <= i < |env| && env[i].name == name
  }

  function AddMissing(env: seq<EnvVar>, def: seq<EnvVar>): seq<EnvVar> {
    if def == [] then env
    else
      var r, v := AddMissing(env, def[..|def| - 1]), def[|def| - 1];
      if HasName(r, v.name) then r else r + [v]
  }

  function MergeEnv(env: seq<EnvVar>, def: seq<EnvVar>): seq<EnvVar> {
    AddMissing(if env == [] then def else env, def)
  }

  function MergeConfig(cfg: Config, def: Config): Config {
    cfg.(command := OrSlice(cfg.command, def.command), args := OrSlice(cfg.args, def.args),
        extraEnv := MergeEnv(cfg.extraEnv, def.extraEnv))
  }

  /** r starts with env; what follows are defaults whose names were not there yet. */
  ghost predicate Extends(r: seq<EnvVar>, env: seq<EnvVar>, def: seq<EnvVar>) {
    env <= r && forall i :: |env| <= i < |r| ==> r[i] in def && !HasName(r[..i], r[i].name)
  }

  lemma ExtendsOneMore(r: seq<EnvVar>, env: seq<EnvVar>, def: seq<EnvVar>, v: EnvVar)
    requires Extends(r, env, def)
    ensures Extends(r, env, def + [v])
    ensures !HasName(r, v.name) ==> Extends(r + [v], env, def + [v])
  {
    assert forall i :: 0 <= i <= |r| ==> (r + [v])[..i] == r[..i];
    assert r[..|r|] == r;
  }

  lemma HasNameAppended(r: seq<EnvVar>, v: EnvVar)
    ensures HasName(r + [v], v.name) && forall n :: HasName(r, n) ==> HasName(r + [v], n)
  {
    assert (r + [v])[|r|] == v;
    forall n | HasName(r, n) ensures HasName(r + [v], n) {
      var i :| 0 <= i < |r| && r[i].name == n;
      assert (r + [v])[i] == r[i];
    }
  }

  /** What was there stays, in front, every default name is there, and what was appended is a
      default whose name was not there yet. */
  lemma {:induction false} AddMissingMeaning(env: seq<EnvVar>, def: seq<EnvVar>)
    ensures Extends(AddMissing(env, def), env, def)
    ensures forall v :: v in def ==> HasName(AddMissing(env, def), v.name)
    ensures (forall v :: v in def ==> HasName(env, v.name)) ==> AddMissing(env, def) == env
  {
    if def != [] {
      var front, v := def[..|def| - 1], def[|def| - 1];
      AddMissingMeaning(env, front);
      assert front + [v] == def;
      ExtendsOneMore(AddMissing(env, front), env, front, v);
      HasNameAppended(AddMissing(env, front), v);
    }
  }

  /** Merging once is enough. */
  lemma MergeEnvTwice(env: seq<EnvVar>, def: seq<EnvVar>)
    ensures MergeEnv(MergeEnv(env, def), def) == MergeEnv(env, def)
    ensures env <= MergeEnv(env, def) && forall v :: v in def ==> HasName(MergeEnv(env, def), v.name)
  {
    var base := if env == [] then def else env;
    AddMissingMeaning(base, def);
    AddMissingMeaning(MergeEnv(env, def), def);
  }

  method Merge(cfg: Option<Config>, def: Config) returns (r: Option<Config>)
    ensures r == if cfg.None? then None else Some(MergeConfig(cfg.value, def))
  {
    // With a nil receiver the merge goes into a local copy that nobody sees.
    var c := if cfg.None? then EMPTY_CONFIG else cfg.value;
    c := c.(command := OrSlice(c.command, def.command));
    c := c.(args := OrSlice(c.args, def.args));
    if |c.extraEnv| == 0 {
      c := c.(extraEnv := def.extraEnv);
    }
    ghost var base := c.extraEnv;
    for n := 0 to |def.extraEnv|
      invariant c.extraEnv == AddMissing(base, def.extraEnv[..n])
      invariant c == c.(extraEnv := c.extraEnv)
      invariant c.command == OrSlice(if cfg.None? then [] else cfg.value.command, def.command)
      invariant c.args == OrSlice(if cfg.None? then [] else cfg.value.args, def.args)
      invariant cfg.Some? ==> c.image == cfg.value.image && c.timeout == cfg.value.timeout
    {
      var v := def.extraEnv[n];
      assert def.extraEnv[..n + 1][..n] == def.extraEnv[..n];
      var found := false;
      for i := 0 to |c.extraEnv|
        invariant found <==> exists j :: 0 <= j < i && c.extraEnv[j].name == v.name
      {
        if v.name == c.extraEnv[i].name {
          found := true;
        }
      }
      if !found {
        c := c.(extraEnv := c.extraEnv + [v]);
      }
    }
    assert def.extraEnv[..|def.extraEnv|] == def.extraEnv;
    r := if cfg.None? then None else Some(c);
  }

  // ---------- merging the table of default tasks ----------

  predicate IsTable(table: seq<Task>) {
    && (forall i :: 0 <= i < |table| ==> table[i].config.Some?)
    && (forall i, j :: 0 <= i < j < |table| ==> table[i].name != table[j].name)
  }

  function MergeTask(t: Task, d: Task): Task
    requires d.config.Some?
  {
    if t.name != d.name then t
    else Task(t.name, Or(t.description, d.description), Or(t.enabled, d.enabled),
              if t.config.None? then None else Some(MergeConfig(t.config.value, d.config.value)))
  }

  predicate Named(tasks: seq<Task>, name: string) {
    exists i :: 0 <= i < |tasks| && tasks[i].name == name
  }

  function MergeTasks(tasks: seq<Task>, d: Task): (r: seq<Task>)
    requires d.config.Some?
    ensures |r| == |tasks| && forall i :: 0 <= i < |tasks| ==> r[i] == MergeTask(tasks[i], d)
  {
    seq(|tasks|, i requires 0 <= i < |tasks| => MergeTask(tasks[i], d))
  }

  function AddDefault(tasks: seq<Task>, d: Task): seq<Task>
    requires d.config.Some?
  {
    if Named(tasks, d.name) then MergeTasks(tasks, d) else tasks + [d]
  }

  function AddDefaults(tasks: seq<Task>, table: seq<Task>): seq<Task>
    requires IsTable(table)
  {
    if table == [] then tasks else AddDefault(AddDefaults(tasks, table[..|table| - 1]), table[|table| - 1])
  }

  /** The default that goes by a name. */
  function DefaultFor(table: seq<Task>, name: string): Option<Task> {
    if table == [] then None
    else if table[|table| - 1].name == name then Some(table[|table| - 1])
    else DefaultFor(table[..|table| - 1], name)
  }

  /** A user task after the pass over the table. */
  function Merged(t: Task, table: seq<Task>): Task
    requires IsTable(table)
  {
    var d := DefaultFor(table, t.name);
    if d.None? then t else DefaultInTable(table, t.name); MergeTask(t, d.value)
  }

  lemma {:induction false} DefaultInTable(table: seq<Task>, name: string)
    ensures DefaultFor(table, name).Some? ==>
        DefaultFor(table, name).value in table && DefaultFor(table, name).value.name == name
    ensures DefaultFor(table, name).Some? <==> Named(table, name)
  {
    if table != [] {
      var front := table[..|table| - 1];
      DefaultInTable(front, name);
      assert Named(front, name) ==> Named(table, name) by {
        if Named(front, name) {
          var i :| 0 <= i < |front| && front[i].name == name;
          assert table[i].name == name;
        }
      }
      if Named(table, name) && table[|table| - 1].name != name {
        var i :| 0 <= i < |table| && table[i].name == name;
        assert front[i].name == name;
      }
    }
  }

  /** The defaults no user task goes by, in table order. */
  function Missing(tasks: seq<Task>, table: seq<Task>): seq<Task> {
    if table == [] then []
    else
      var front, d := Missing(tasks, table[..|table| - 1]), table[|table| - 1];
      if Named(tasks, d.name) then front else front + [d]
  }

  function MergedAll(tasks: seq<Task>, table: seq<Task>): (r: seq<Task>)
    requires IsTable(table)
    ensures |r| == |tasks| && forall i :: 0 <= i < |tasks| ==> r[i] == Merged(tasks[i], table)
  {
    seq(|tasks|, i requires 0 <= i < |tasks| => Merged(tasks[i], table))
  }

  lemma {:induction false} MissingFromTable(tasks: seq<Task>, table: seq<Task>)
    ensures forall t :: t in Missing(tasks, table) ==> t in table && !Named(tasks, t.name)
    ensures IsTable(table) ==> IsTable(Missing(tasks, table))
  {
    if table != [] { MissingFromTable(tasks, table[..|table| - 1]); }
  }

  /** One more row of the table: only tasks that go by its name are merged with it. */
  lemma MergedStep(t: Task, table: seq<Task>)
    requires IsTable(table) && table != []
    ensures IsTable(table[..|table| - 1])
    ensures Merged(t, table) == MergeTask(Merged(t, table[..|table| - 1]), table[|table| - 1])
  {
    var front := table[..|table| - 1];
    DefaultInTable(front, t.name);
  }

  lemma MergedAllStep(tasks: seq<Task>, table: seq<Task>)
    requires IsTable(table) && table != []
    ensures IsTable(table[..|table| - 1])
    ensures MergedAll(tasks, table) == MergeTasks(MergedAll(tasks, table[..|table| - 1]), table[|table| - 1])
  {
    forall i | 0 <= i < |tasks|
      ensures Merged(tasks[i], table) == MergeTask(Merged(tasks[i], table[..|table| - 1]), table[|table| - 1])
    {
      MergedStep(tasks[i], table);
    }
  }

  /** Tasks that do not go by a default's name are not touched by it. */
  lemma MergeTasksSplit(xs: seq<Task>, ys: seq<Task>, d: Task)
    requires d.config.Some? && !Named(ys, d.name)
    ensures MergeTasks(xs + ys, d) == MergeTasks(xs, d) + ys
    ensures MergeTasks(ys, d) == ys
  {
  }

  lemma NamedParts(xs: seq<Task>, ys: seq<Task>, name: string)
    ensures Named(xs + ys, name) <==> Named(xs, name) || Named(ys, name)
  {
    if i :| 0 <= i < |xs| && xs[i].name == name { assert (xs + ys)[i].name == name; }
    if i :| 0 <= i < |ys| && ys[i].name == name { assert (xs + ys)[|xs| + i].name == name; }
  }

  /** The pass over the table keeps the user's tasks in place, each merged with the default of its
      name, and appends every default that is missing, once, in table order. */
  lemma {:induction false} AddDefaultsMeaning(tasks: seq<Task>, table: seq<Task>)
    requires IsTable(table)
    ensures AddDefaults(tasks, table) == MergedAll(tasks, table) + Missing(tasks, table)
  {
    if table == [] {
      assert MergedAll(tasks, table) == tasks;
    } else {
      var front, d := table[..|table| - 1], table[|table| - 1];
      AddDefaultsMeaning(tasks, front);
      MergedAllStep(tasks, table);
      var m: seq<Task> := MergedAll(tasks, front);
      var x: seq<Task> := Missing(tasks, front);
      MissingFromTable(tasks, front);
      assert !Named(x, d.name);
      NamedParts(m, x, d.name);
      assert Named(m, d.name) <==> Named(tasks, d.name) by {
        assert forall i :: 0 <= i < |tasks| ==> m[i].name == tasks[i].name;
      }
      MergeTasksSplit(m, x, d);
      if !Named(m, d.name) { MergeTasksSplit([], m, d); }
    }
  }

  // ---------- the rest of the defaulting ----------

  function FinishImage(image: Option<Image>, def: Image): Option<Image> {
    var i := if image.None? then Image(None, None, None, None) else image.value;
    Some(Image(Or(i.name, def.name), Or(i.tag, def.tag), Or(i.pullSecret, def.pullSecret),
        Or(i.pullPolicy, def.pullPolicy)))
  }

  function FinishConfig(cfg: Option<Config>, image: Image): Config {
    var c := if cfg.None? then EMPTY_CONFIG else cfg.value;
    Config(FinishImage(c.image, image), OrSlice(c.command, ECHO), OrSlice(c.args, NOT_SET), c.extraEnv,
        Or(c.timeout, Some(TASKS_TIMEOUT)))
  }

  function Finish(t: Task, image: Image): Task {
    Task(t.name, Or(t.description, Some(t.name)), Or(t.enabled, Some(true)), Some(FinishConfig(t.config, image)))
  }

  function FinishAll(tasks: seq<Task>, image: Image): (r: seq<Task>)
    ensures |r| == |tasks| && forall i :: 0 <= i < |tasks| ==> r[i] == Finish(tasks[i], image)
  {
    seq(|tasks|, i requires 0 <= i < |tasks| => Finish(tasks[i], image))
  }

  function Pass(tasks: seq<Task>, table: seq<Task>, image: Image): seq<Task>
    requires IsTable(table)
  {
    FinishAll(AddDefaults(tasks, table), image)
  }

  class SystemSpec {
    var Tasks: seq<Task>

    /** Task names are never nil here: the controller dereferences them. */
    method DefaultTasks(table: seq<Task>, image: Image)
      requires IsTable(table)
      modifies this
      ensures Tasks == Pass(old(Tasks), table, image)
    {
      for n := 0 to |table|
        invariant Tasks == AddDefaults(old(Tasks), table[..n])
      {
        var d := table[n];
        assert table[..n + 1][..n] == table[..n];
        var found := AddDefaultTask(d);
        if !found {
          Tasks := Tasks + [d];
        }
      }
      assert table[..|table|] == table;
      var i := 0;
      ghost var merged := Tasks;
      while i < |Tasks|
        invariant 0 <= i <= |Tasks| == |merged|
        invariant forall j :: 0 <= j < |merged| ==> Tasks[j] == if j < i then Finish(merged[j], image) else merged[j]
      {
        Tasks := Tasks[i := Finish(Tasks[i], image)];
        i := i + 1;
      }
    }

    /** The inner loop: defaults what is missing in the tasks that go by the default's name. */
    method AddDefaultTask(d: Task) returns (found: bool)
      requires d.config.Some?
      modifies this
      ensures found <==> Named(old(Tasks), d.name)
      ensures Tasks == MergeTasks(old(Tasks), d)
    {
      found := false;
      var i := 0;
      while i < |Tasks|
        invariant 0 <= i <= |Tasks| == |old(Tasks)|
        invariant forall j :: 0 <= j < |Tasks| ==>
            Tasks[j] == if j < i then MergeTask(old(Tasks)[j], d) else old(Tasks)[j]
        invariant found <==> exists j :: 0 <= j < i && old(Tasks)[j].name == d.name
      {
        var t := Tasks[i];
        if t.name == d.name {
          var merged := Merge(t.config, d.config.value);
          t := t.(description := Or(t.description, d.description));
          t := t.(enabled := Or(t.enabled, d.enabled));
          t := t.(config := merged);
          Tasks := Tasks[i := t];
          found := true;
        }
        i := i + 1;
      }
    }
  }

  // ---------- what it promises ----------

  /** The user's tasks keep their order and come first; then come the missing defaults. */
  lemma PassKeepsOrder(tasks: seq<Task>, table: seq<Task>, image: Image)
    requires IsTable(table)
    ensures var r, m := Pass(tasks, table, image), Missing(tasks, table);
            && |r| == |tasks| + |m|
            && (forall i :: 0 <= i < |tasks| ==>
                r[i] == Finish(Merged(tasks[i], table), image) && r[i].name == tasks[i].name)
            && (forall i :: 0 <= i < |m| ==> r[|tasks| + i] == Finish(m[i], image))
  {
    AddDefaultsMeaning(tasks, table);
    var user: seq<Task> := MergedAll(tasks, table);
    var m: seq<Task> := Missing(tasks, table);
    var r: seq<Task> := FinishAll(user + m, image);
    forall i | 0 <= i < |tasks| ensures r[i] == Finish(Merged(tasks[i], table), image) && r[i].name == tasks[i].name {
      assert (user + m)[i] == user[i];
      MergedKeepsName(tasks[i], table);
    }
    forall i | 0 <= i < |m| ensures r[|tasks| + i] == Finish(m[i], image) {
      assert (user + m)[|tasks| + i] == m[i];
    }
  }

  lemma MergedKeepsName(t: Task, table: seq<Task>)
    requires IsTable(table)
    ensures Merged(t, table).name == t.name
  {
  }

  /** Where each field of a task of the user comes from: the task itself, else the default of its name,
      else what is the same for all.  Command and arguments come from the default only if the task
      has a configuration, timeout and image never do. */
  lemma PassFills(tasks: seq<Task>, table: seq<Task>, image: Image, i: nat)
    requires IsTable(table) && i < |tasks|
    ensures |tasks| <= |Pass(tasks, table, image)| && Pass(tasks, table, image)[i].config.Some?
    ensures var t, r := tasks[i], Pass(tasks, table, image)[i];
            && (t.enabled.Some? ==> r.enabled == t.enabled)
            && (t.enabled.None? && !Named(table, t.name) ==> r.enabled == Some(true))
            && (t.description.Some? ==> r.description == t.description)
            && (t.description.None? && !Named(table, t.name) ==> r.description == Some(t.name))
            && forall d :: d in table && d.name == t.name ==>
                 && (t.enabled.None? ==> r.enabled == if d.enabled.Some? then d.enabled else Some(true))
                 && (t.description.None? ==>
                       r.description == if d.description.Some? then d.description else Some(t.name))
    ensures var t, c := tasks[i], Pass(tasks, table, image)[i].config.value;
            t.config.Some? ==>
              && (t.config.value.command != [] ==> c.command == t.config.value.command)
              && (t.config.value.args != [] ==> c.args == t.config.value.args)
              && (!Named(table, t.name) && t.config.value.command == [] ==> c.command == ["echo"])
              && (!Named(table, t.name) && t.config.value.args == [] ==> c.args == ["Step command not set."])
              && (forall d :: d in table && d.name == t.name && d.config.Some? ==>
                    && (t.config.value.command == [] ==>
                          c.command == if d.config.value.command != [] then d.config.value.command else ["echo"])
                    && (t.config.value.args == [] ==>
                          c.args == if d.config.value.args != [] then d.config.value.args
                                    else ["Step command not set."]))
              && c.timeout == if t.config.value.timeout.Some? then t.config.value.timeout else Some(10_800_000)
    ensures var t, c := tasks[i], Pass(tasks, table, image)[i].config.value;
            && c.image.Some?
            && var own := if t.config.Some? && t.config.value.image.Some? then t.config.value.image.value
                          else Image(None, None, None, None);
               && c.image.value.name == (if own.name.Some? then own.name else image.name)
               && c.image.value.tag == (if own.tag.Some? then own.tag else image.tag)
               && c.image.value.pullSecret == (if own.pullSecret.Some? then own.pullSecret else image.pullSecret)
               && c.image.value.pullPolicy == (if own.pullPolicy.Some? then own.pullPolicy else image.pullPolicy)
  {
    PassKeepsOrder(tasks, table, image);
    DefaultInTable(table, tasks[i].name);
    forall d | d in table && d.name == tasks[i].name ensures DefaultFor(table, tasks[i].name) == Some(d) {
      OnlyDefault(table, d);
    }
  }

  lemma OnlyDefault(table: seq<Task>, d: Task)
    requires IsTable(table) && d in table
    ensures DefaultFor(table, d.name) == Some(d)
  {
    DefaultInTable(table, d.name);
    var i :| 0 <= i < |table| && table[i] == d;
    assert Named(table, d.name);
  }

  /** A configured task keeps its variables in front and has all variables of its default. */
  lemma PassKeepsEnv(tasks: seq<Task>, table: seq<Task>, image: Image, i: nat)
    requires IsTable(table) && i < |tasks| && tasks[i].config.Some?
    ensures |tasks| <= |Pass(tasks, table, image)| && Pass(tasks, table, image)[i].config.Some?
    ensures var env := Pass(tasks, table, image)[i].config.value.extraEnv;
            && tasks[i].config.value.extraEnv <= env
            && forall d, v ::
                 d in table && d.name == tasks[i].name && d.config.Some? && v in d.config.value.extraEnv ==>
                   HasName(env, v.name)
  {
    PassKeepsOrder(tasks, table, image);
    DefaultInTable(table, tasks[i].name);
    var d := DefaultFor(table, tasks[i].name);
    if d.Some? {
      MergeEnvTwice(tasks[i].config.value.extraEnv, d.value.config.value.extraEnv);
    }
  }

  /** A task that a second pass would change: it goes by the name of a default with variables,
      and has no configuration to merge them into. */
  predicate LosesEnv(t: Task, table: seq<Task>) {
    t.config.None? && exists i ::
      0 <= i < |table| && table[i].name == t.name && table[i].config.Some? && table[i].config.value.extraEnv != []
  }

  /** One task through the pass twice. */
  lemma TaskTwice(t: Task, table: seq<Task>, image: Image)
    requires IsTable(table)
    ensures var r := Finish(Merged(t, table), image);
            Finish(Merged(r, table), image) == r <==> !LosesEnv(t, table)
  {
    var r := Finish(Merged(t, table), image);
    DefaultInTable(table, t.name);
    var d := DefaultFor(table, t.name);
    if d.Some? {
      var def := d.value.config.value;
      var i :| 0 <= i < |table| && table[i] == d.value;
      if t.config.Some? {
        MergeEnvTwice(t.config.value.extraEnv, def.extraEnv);
      } else {
        AddMissingMeaning(def.extraEnv, def.extraEnv);
        assert r.config.value.extraEnv == [];
        assert LosesEnv(t, table) <==> def.extraEnv != [];
      }
    }
  }

  lemma {:induction false} SameNamesNothingMissing(r: seq<Task>, table: seq<Task>)
    requires forall i :: 0 <= i < |table| ==> Named(r, table[i].name)
    ensures Missing(r, table) == []
  {
    if table != [] { SameNamesNothingMissing(r, table[..|table| - 1]); }
  }

  lemma {:induction false} MissingCovers(tasks: seq<Task>, table: seq<Task>, i: nat)
    requires i < |table|
    ensures Named(tasks, table[i].name) || table[i] in Missing(tasks, table)
  {
    if i < |table| - 1 { MissingCovers(tasks, table[..|table| - 1], i); }
  }

  /** Running the pass again changes nothing, exactly when no user task goes by the name of a
      default with variables without having a configuration. */
  lemma PassTwiceExactly(tasks: seq<Task>, table: seq<Task>, image: Image)
    requires IsTable(table)
    ensures var r := Pass(tasks, table, image);
            Pass(r, table, image) == r <==> forall i :: 0 <= i < |tasks| ==> !LosesEnv(tasks[i], table)
  {
    var r, m := Pass(tasks, table, image), Missing(tasks, table);
    PassKeepsOrder(tasks, table, image);
    PassKeepsOrder(r, table, image);
    forall k | 0 <= k < |table| ensures Named(r, table[k].name) {
      MissingCovers(tasks, table, k);
      if Named(tasks, table[k].name) {
        var i :| 0 <= i < |tasks| && tasks[i].name == table[k].name;
        assert r[i].name == table[k].name;
      } else {
        var i :| 0 <= i < |m| && m[i] == table[k];
        assert r[|tasks| + i].name == table[k].name;
      }
    }
    SameNamesNothingMissing(r, table);
    MissingFromTable(tasks, table);
    forall i | 0 <= i < |r| ensures r[i] == Pass(r, table, image)[i] <==> i >= |tasks| || !LosesEnv(tasks[i], table) {
      if i < |tasks| {
        TaskTwice(tasks[i], table, image);
      } else {
        DefaultUntouched(m[i - |tasks|], table, image);
      }
    }
  }

  /** A default that was appended is not changed by a second pass. */
  lemma DefaultUntouched(d: Task, table: seq<Task>, image: Image)
    requires IsTable(table) && d in table
    ensures var r := Finish(d, image); Finish(Merged(r, table), image) == r
  {
    DefaultInTable(table, d.name);
    var i :| 0 <= i < |table| && table[i] == d;
    assert Named(table, d.name);
    assert DefaultFor(table, d.name).value == d;
    AddMissingMeaning(d.config.value.extraEnv, d.config.value.extraEnv);
  }

  // ---------- the operator's own table ----------

  const ENTRYPOINT := ["container-entrypoint"]
  const SYNC_ARGS := ["bundle", "exec", "rails", "backend:storage:enqueue_rewrite"]
  const MIGRATE_ARGS := ["bundle", "exec", "rails", "db:migrate"]
  const REINDEX_ARGS := ["bundle", "exec", "rake", "searchd:optimal_index"]
  const BATCH_SIZE := EnvVar("THINKING_SPHINX_BATCH_SIZE", "20")

  const SYNC := Task("system-backend-sync", Some("Runs the Backend Synchronization task"), None,
                     Some(Config(None, ENTRYPOINT, SYNC_ARGS, [], None)))
  const MIGRATE := Task("system-db-migrate", Some("Runs the Database Migration task"), None,
                        Some(Config(None, ENTRYPOINT, MIGRATE_ARGS, [], None)))
  const REINDEX := Task("system-searchd-reindex", Some("Runs the Searchd Rendexation task"), None,
                        Some(Config(None, ENTRYPOINT, REINDEX_ARGS, [BATCH_SIZE], None)))
  const SYSTEM_TASKS := [SYNC, MIGRATE, REINDEX]

  lemma SystemTasksIsTable()
    ensures IsTable(SYSTEM_TASKS)
  {
    assert |SYNC.name| == 19 && |MIGRATE.name| == 17 && |REINDEX.name| == 22;
  }

  /** For that table the pass is a no-op the second time unless the reindex task is named without
      a configuration; its command then also stays the placeholder, not the default's. */
  lemma SystemTasksTwice(tasks: seq<Task>, image: Image)
    ensures IsTable(SYSTEM_TASKS)
    ensures var r := Pass(tasks, SYSTEM_TASKS, image);
            Pass(r, SYSTEM_TASKS, image) == r <==> forall i :: 0 <= i < |tasks| && tasks[i].config.None? ==>
                tasks[i].name != REINDEX.name
    ensures var r := Pass(tasks, SYSTEM_TASKS, image);
            |tasks| <= |r| && forall i :: 0 <= i < |tasks| && tasks[i].config.None? ==>
              r[i].config.Some? && r[i].config.value.command == ECHO && r[i].config.value.args == NOT_SET &&
                  r[i].config.value.extraEnv == []
  {
    SystemTasksIsTable();
    PassTwiceExactly(tasks, SYSTEM_TASKS, image);
    PassKeepsOrder(tasks, SYSTEM_TASKS, image);
    assert SYSTEM_TASKS[2] == REINDEX;
    forall i | 0 <= i < |tasks|
      ensures LosesEnv(tasks[i], SYSTEM_TASKS) <==> tasks[i].config.None? && tasks[i].name == REINDEX.name
    {
    }
  }
}
