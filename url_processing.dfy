/** The capped processing pipeline (`URLProcessor` in main.py) and the
    script's entry point that feeds it the loaded tasks. */
module UrlProcessing {
  import opened Wrappers
  import opened TaskLoader

  /** How many tasks one run converts at most: `limit` starts at 1. */
  const MaxTasksPerRun: nat := 1

  /** The output directory the script's entry point uses. */
  const DefaultOutputDir: string := "output"

  /** What one pass of the loop does, in order: the warning for a task whose URL
      fails validation, one call of the Markdown converter, or the notice that
      the limit was reached (after which the loop stops). */
  datatype Event =
    | Skipped(url: string)
    | Converted(task: URLTask, markdownPath: string)
    | LimitReached

  /** `output_dir / f"{filename}.md"`, with pathlib's rules for an absolute
      right-hand side and for an empty or `.` directory. */
  function MarkdownPath(outputDir: string, filename: string): string
  {
    if (filename != [] && filename[0] == '/') || outputDir == "" || outputDir == "." then
      filename + ".md"
    else
      outputDir + "/" + filename + ".md"
  }

  /** The Markdown path ends in the file name and `.md`. An absolute file name
      replaces the directory, and an empty or `.` directory contributes nothing.
      Otherwise the path starts with the directory and a slash. */
  lemma MarkdownPathShape(outputDir: string, filename: string)
    ensures var path := MarkdownPath(outputDir, filename);
      && |path| >= |filename| + 3 && path[|path| - 3..] == ".md"
      && path[|path| - 3 - |filename|..|path| - 3] == filename
      && ((filename != [] && filename[0] == '/') || outputDir in {"", "."} <==> path == filename + ".md")
      && (path != filename + ".md" ==>
            |outputDir| + 1 <= |path| && path[..|outputDir| + 1] == outputDir + "/")
  {
  }

  /** The events of the selection loop over `tasks` with `limit` conversions
      still allowed: a skipped task leaves the limit alone, a converted one uses
      one up, and a task met with no conversion left ends the run. */
  function Run(tasks: seq<URLTask>, validate: string -> bool, outputDir: string, limit: nat): seq<Event>
  {
    if tasks == [] then []
    else if limit == 0 then [LimitReached]
    else if validate(tasks[0].url) then
      [Converted(tasks[0], MarkdownPath(outputDir, tasks[0].filename))]
        + Run(tasks[1..], validate, outputDir, limit - 1)
    else [Skipped(tasks[0].url)] + Run(tasks[1..], validate, outputDir, limit)
  }

  /** The tasks whose URL passes validation, in list order. */
  function ValidTasks(tasks: seq<URLTask>, validate: string -> bool): seq<URLTask>
  {
    if tasks == [] then []
    else if validate(tasks[0].url) then [tasks[0]] + ValidTasks(tasks[1..], validate)
    else ValidTasks(tasks[1..], validate)
  }

  /** The tasks handed to the converter, in call order. */
  function ConvertedTasks(events: seq<Event>): seq<URLTask>
  {
    if events == [] then []
    else if events[0].Converted? then [events[0].task] + ConvertedTasks(events[1..])
    else ConvertedTasks(events[1..])
  }

  /** One warning per task, in order. */
  function SkipEvents(tasks: seq<URLTask>): seq<Event>
  {
    if tasks == [] then [] else [Skipped(tasks[0].url)] + SkipEvents(tasks[1..])
  }

  /** The first n elements of s, or all of s when it is shorter. */
  function Take<T>(s: seq<T>, n: nat): (r: seq<T>)
    ensures |r| == if n < |s| then n else |s|
  {
    if n < |s| then s[..n] else s
  }

  class URLProcessor {
    const urlTasks: seq<URLTask>
    const outputDir: string

    /** Creating the output directory is a filesystem effect and is not part of
        this model. */
    constructor (urlTasks: seq<URLTask>, outputDir: string)
      ensures this.urlTasks == urlTasks && this.outputDir == outputDir
    {
      this.urlTasks := urlTasks;
      this.outputDir := outputDir;
    }

    /** One run over the task list: `validate` stands for the URL validator, and
        the result is what the run logs and which converter calls it makes. */
    method Process(validate: string -> bool) returns (events: seq<Event>)
      ensures events == Run(urlTasks, validate, outputDir, MaxTasksPerRun)
      ensures ConvertedTasks(events) == Take(ValidTasks(urlTasks, validate), MaxTasksPerRun)
      ensures |ConvertedTasks(events)| <= MaxTasksPerRun
    {
      events := [];
      var limit: int := MaxTasksPerRun;
      var i := 0;
      while i < |urlTasks|
        invariant 0 <= i <= |urlTasks|
        invariant 0 <= limit <= MaxTasksPerRun
        invariant events + Run(urlTasks[i..], validate, outputDir, limit)
                  == Run(urlTasks, validate, outputDir, MaxTasksPerRun)
      {
        var task := urlTasks[i];
        RunStep(urlTasks, validate, outputDir, limit, i);
        if limit == 0 {
          events := events + [LimitReached];
          break;
        }
        if validate(task.url) {
          var markdownPath := MarkdownPath(outputDir, task.filename);
          events := events + [Converted(task, markdownPath)];
          limit := limit - 1;
        } else {
          events := events + [Skipped(task.url)];
        }
        i := i + 1;
      }
      RunConvertsFirstValid(urlTasks, validate, outputDir, MaxTasksPerRun);
    }
  }

  /** `load_url_tasks_from_yaml` followed by one run of a processor over its
      result in the default output directory. */
  method ProcessConfiguredTasks(doc: Document, validate: string -> bool) returns (events: seq<Event>)
    ensures events == Run(LoadedTasks(doc), validate, DefaultOutputDir, MaxTasksPerRun)
    ensures (doc.None? || !AllHaveKeys(doc.value)) ==> events == []
  {
    var tasks := LoadUrlTasks(doc);
    var processor := new URLProcessor(tasks, DefaultOutputDir);
    events := processor.Process(validate);
  }

  /** One pass of the loop at position i, as `Run` describes it. */
  lemma RunStep(tasks: seq<URLTask>, validate: string -> bool, outputDir: string, limit: nat, i: nat)
    requires i < |tasks|
    ensures Run(tasks[i..], validate, outputDir, limit)
            == if limit == 0 then [LimitReached]
               else if validate(tasks[i].url) then
                 [Converted(tasks[i], MarkdownPath(outputDir, tasks[i].filename))]
                   + Run(tasks[i + 1..], validate, outputDir, limit - 1)
               else [Skipped(tasks[i].url)] + Run(tasks[i + 1..], validate, outputDir, limit)
  {
    assert tasks[i..][1..] == tasks[i + 1..];
  }

  /** The converter is called for the first `limit` valid tasks, in list order,
      each once; invalid tasks do not use up the limit. */
  lemma {:induction false} RunConvertsFirstValid(tasks: seq<URLTask>, validate: string -> bool,
                                                 outputDir: string, limit: nat)
    ensures ConvertedTasks(Run(tasks, validate, outputDir, limit)) == Take(ValidTasks(tasks, validate), limit)
  {
    if tasks != [] && limit != 0 {
      var rest := tasks[1..];
      if validate(tasks[0].url) {
        var e := Converted(tasks[0], MarkdownPath(outputDir, tasks[0].filename));
        var tail := Run(rest, validate, outputDir, limit - 1);
        assert ([e] + tail)[1..] == tail;
        RunConvertsFirstValid(rest, validate, outputDir, limit - 1);
      } else {
        var tail := Run(rest, validate, outputDir, limit);
        assert ([Skipped(tasks[0].url)] + tail)[1..] == tail;
        RunConvertsFirstValid(rest, validate, outputDir, limit);
      }
    }
  }

  /** Every converter call writes to the task's Markdown file in the output
      directory. */
  lemma {:induction false} ConvertedPaths(tasks: seq<URLTask>, validate: string -> bool,
                                          outputDir: string, limit: nat, k: nat)
    requires k < |Run(tasks, validate, outputDir, limit)|
    requires Run(tasks, validate, outputDir, limit)[k].Converted?
    ensures Run(tasks, validate, outputDir, limit)[k].markdownPath
            == MarkdownPath(outputDir, Run(tasks, validate, outputDir, limit)[k].task.filename)
  {
    if k > 0 {
      var rest := tasks[1..];
      if validate(tasks[0].url) {
        ConvertedPaths(rest, validate, outputDir, limit - 1, k - 1);
      } else {
        ConvertedPaths(rest, validate, outputDir, limit, k - 1);
      }
    }
  }

  /** With the cap of one and k the first task with a valid URL: the run warns
      about the tasks before k, converts task k, and stops at the next task if
      there is one. */
  lemma {:induction false} RunPicksFirstValid(tasks: seq<URLTask>, validate: string -> bool,
                                              outputDir: string, k: nat)
    requires k < |tasks| && validate(tasks[k].url)
    requires forall j :: 0 <= j < k ==> !validate(tasks[j].url)
    ensures Run(tasks, validate, outputDir, MaxTasksPerRun)
            == SkipEvents(tasks[..k])
               + [Converted(tasks[k], MarkdownPath(outputDir, tasks[k].filename))]
               + (if k + 1 < |tasks| then [LimitReached] else [])
  {
    if k == 0 {
      assert SkipEvents(tasks[..0]) == [];
    } else {
      var rest := tasks[1..];
      assert tasks[..k][1..] == rest[..k - 1];
      assert rest[k - 1] == tasks[k];
      RunPicksFirstValid(rest, validate, outputDir, k - 1);
    }
  }

  /** When no URL is valid, every task is skipped and nothing is converted. */
  lemma {:induction false} RunWithNoValid(tasks: seq<URLTask>, validate: string -> bool,
                                          outputDir: string, limit: nat)
    requires limit > 0
    requires forall j :: 0 <= j < |tasks| ==> !validate(tasks[j].url)
    ensures Run(tasks, validate, outputDir, limit) == SkipEvents(tasks)
  {
    if tasks != [] {
      RunWithNoValid(tasks[1..], validate, outputDir, limit);
    }
  }
}
