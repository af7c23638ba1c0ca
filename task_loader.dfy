/** Deriving the list of conversion tasks from the parsed configuration
    document (`load_url_tasks_from_yaml` in main.py). */
module TaskLoader {
  import opened Wrappers

  /** One unit of work: the base name of the output file and the page to fetch. */
  datatype URLTask = URLTask(filename: string, url: string)

  /** One top-level section of the configuration document, in document order.
      A key the section lacks is None. */
  datatype Section = Section(name: string, baseUrl: Option<string>, urls: Option<seq<string>>)

  /** The parsed document: None when the file cannot be opened or parsed, or
      when its top level is not a mapping. */
  type Document = Option<seq<Section>>

  /** `s.replace('/', '_')`: every slash becomes an underscore, nothing else moves. */
  function ReplaceSlashes(s: string): (r: string)
    ensures |r| == |s|
    ensures forall k :: 0 <= k < |s| ==> r[k] == (if s[k] == '/' then '_' else s[k])
    ensures '/' !in r
  {
    if s == [] then [] else [if s[0] == '/' then '_' else s[0]] + ReplaceSlashes(s[1..])
  }

  /** The task one entry of a section yields: the full URL is the section's base
      URL followed by the entry, the file name is the section name, an underscore
      and the entry with its slashes replaced. */
  function EntryTask(section: string, baseUrl: string, entry: string): (t: URLTask)
    ensures |t.filename| == |section| + 1 + |entry|
    ensures t.filename[..|section| + 1] == section + "_"
    ensures t.filename[|section| + 1..] == ReplaceSlashes(entry)
    ensures '/' !in t.filename[|section| + 1..]
    ensures t.url == baseUrl + entry
  {
    var suffix := ReplaceSlashes(entry);
    assert (section + "_" + suffix)[|section| + 1..] == suffix;
    URLTask(section + "_" + suffix, baseUrl + entry)
  }

  /** Both keys that the loader reads are present. */
  predicate HasKeys(s: Section)
  {
    s.baseUrl.Some? && s.urls.Some?
  }

  predicate AllHaveKeys(sections: seq<Section>)
  {
    forall i :: 0 <= i < |sections| ==> HasKeys(sections[i])
  }

  /** The tasks of one section, one per entry, in entry order. */
  function SectionTasks(section: string, baseUrl: string, urls: seq<string>): (r: seq<URLTask>)
    ensures |r| == |urls|
    ensures forall j :: 0 <= j < |urls| ==> r[j] == EntryTask(section, baseUrl, urls[j])
  {
    if urls == [] then []
    else SectionTasks(section, baseUrl, urls[..|urls| - 1]) + [EntryTask(section, baseUrl, urls[|urls| - 1])]
  }

  /** The tasks of a document whose sections all have both keys: section by
      section, in document order. */
  function AllTasks(sections: seq<Section>): seq<URLTask>
    requires AllHaveKeys(sections)
  {
    if sections == [] then []
    else
      var last := sections[|sections| - 1];
      AllTasks(sections[..|sections| - 1]) + SectionTasks(last.name, last.baseUrl.value, last.urls.value)
  }

  /** The number of entries a section lists (none when it lacks the key). */
  function UrlCount(s: Section): nat
  {
    if s.urls.Some? then |s.urls.value| else 0
  }

  /** The number of entries across all sections. */
  function TotalUrls(sections: seq<Section>): nat
  {
    if sections == [] then 0
    else TotalUrls(sections[..|sections| - 1]) + UrlCount(sections[|sections| - 1])
  }

  /** What the loader returns for a document: every task, or nothing at all when
      the document is unreadable or any section lacks a key. */
  function LoadedTasks(doc: Document): seq<URLTask>
  {
    if doc.Some? && AllHaveKeys(doc.value) then AllTasks(doc.value) else []
  }

  /** The loader: nested loops that append one task per entry, and return the
      empty list instead as soon as a lookup fails. */
  method LoadUrlTasks(doc: Document) returns (tasks: seq<URLTask>)
    ensures tasks == LoadedTasks(doc)
  {
    if doc.None? {
      return [];
    }
    var sections := doc.value;
    tasks := [];
    for i := 0 to |sections|
      invariant AllHaveKeys(sections[..i])
      invariant tasks == AllTasks(sections[..i])
    {
      var section := sections[i];
      if section.baseUrl.None? {
        assert !HasKeys(sections[i]);
        return [];
      }
      var baseUrl := section.baseUrl.value;
      if section.urls.None? {
        assert !HasKeys(sections[i]);
        return [];
      }
      tasks := AppendEntryTasks(tasks, section.name, baseUrl, section.urls.value);
      AllTasksExtend(sections, i);
    }
    assert sections[..|sections|] == sections;
  }

  /** The inner loop of the loader: one task appended per entry of a section,
      in entry order. */
  method AppendEntryTasks(tasks: seq<URLTask>, section: string, baseUrl: string, urls: seq<string>)
    returns (extended: seq<URLTask>)
    ensures extended == tasks + SectionTasks(section, baseUrl, urls)
  {
    extended := tasks;
    for j := 0 to |urls|
      invariant extended == tasks + SectionTasks(section, baseUrl, urls[..j])
    {
      var fullUrl := baseUrl + urls[j];
      var filename := section + "_" + ReplaceSlashes(urls[j]);
      SectionTasksExtend(section, baseUrl, urls, j);
      extended := extended + [URLTask(filename, fullUrl)];
    }
    assert urls[..|urls|] == urls;
  }

  /** Appending entry j to the entries before it appends its task. */
  lemma SectionTasksExtend(section: string, baseUrl: string, urls: seq<string>, j: nat)
    requires j < |urls|
    ensures SectionTasks(section, baseUrl, urls[..j + 1])
            == SectionTasks(section, baseUrl, urls[..j]) + [EntryTask(section, baseUrl, urls[j])]
  {
    assert urls[..j + 1][..j] == urls[..j];
  }

  /** Appending section i to the sections before it appends its tasks. */
  lemma AllTasksExtend(sections: seq<Section>, i: nat)
    requires i < |sections| && AllHaveKeys(sections[..i]) && HasKeys(sections[i])
    ensures AllHaveKeys(sections[..i + 1])
    ensures AllTasks(sections[..i + 1])
            == AllTasks(sections[..i]) + SectionTasks(sections[i].name, sections[i].baseUrl.value, sections[i].urls.value)
  {
    assert sections[..i + 1][..i] == sections[..i];
  }

  /** Every prefix of a document whose sections all have both keys has them too. */
  lemma PrefixHasKeys(sections: seq<Section>, n: nat)
    requires AllHaveKeys(sections) && n <= |sections|
    ensures AllHaveKeys(sections[..n])
  {
  }

  /** As many tasks as entries across all sections. */
  lemma {:induction false} TaskCount(sections: seq<Section>)
    requires AllHaveKeys(sections)
    ensures |AllTasks(sections)| == TotalUrls(sections)
  {
    if sections != [] {
      PrefixHasKeys(sections, |sections| - 1);
      TaskCount(sections[..|sections| - 1]);
    }
  }

  /** Entry j of section i becomes the task at position TotalUrls(sections[..i]) + j,
      with URL base + entry and file name section + "_" + entry without slashes. */
  lemma {:induction false} TaskAt(sections: seq<Section>, i: nat, j: nat)
    requires AllHaveKeys(sections)
    requires i < |sections| && j < |sections[i].urls.value|
    ensures TotalUrls(sections[..i]) + j < |AllTasks(sections)|
    ensures AllTasks(sections)[TotalUrls(sections[..i]) + j].url
            == sections[i].baseUrl.value + sections[i].urls.value[j]
    ensures AllTasks(sections)[TotalUrls(sections[..i]) + j].filename
            == sections[i].name + "_" + ReplaceSlashes(sections[i].urls.value[j])
  {
    var n := |sections|;
    var init := sections[..n - 1];
    PrefixHasKeys(sections, n - 1);
    TaskCount(init);
    if i < n - 1 {
      assert init[..i] == sections[..i];
      assert init[i] == sections[i];
      TaskAt(init, i, j);
    } else {
      assert sections[..i] == init;
    }
  }

  /** Every task position comes from some entry of some section. */
  lemma {:induction false} TaskOrigin(sections: seq<Section>, p: nat) returns (i: nat, j: nat)
    requires AllHaveKeys(sections)
    requires p < |AllTasks(sections)|
    ensures i < |sections| && j < |sections[i].urls.value|
    ensures p == TotalUrls(sections[..i]) + j
  {
    var n := |sections|;
    var init := sections[..n - 1];
    PrefixHasKeys(sections, n - 1);
    TaskCount(init);
    if p < |AllTasks(init)| {
      i, j := TaskOrigin(init, p);
      assert init[..i] == sections[..i];
    } else {
      i, j := n - 1, p - TotalUrls(init);
      assert sections[..i] == init;
    }
  }

  /** The tasks of an earlier section come before those of a later one. */
  lemma {:induction false} SectionOrder(sections: seq<Section>, i: nat, i2: nat, j: nat)
    requires i < i2 <= |sections| && j < UrlCount(sections[i])
    ensures TotalUrls(sections[..i]) + j < TotalUrls(sections[..i2])
  {
    assert sections[..i2][..i2 - 1] == sections[..i2 - 1];
    if i2 == i + 1 {
      assert sections[..i2][i2 - 1] == sections[i];
    } else {
      SectionOrder(sections, i, i2 - 1, j);
    }
  }

  /** All or nothing: one section without a key, or an unreadable document,
      yields no task at all, not the tasks of the sections before it. */
  lemma MissingKeyYieldsNothing(doc: Document, i: nat)
    requires doc.None? || (i < |doc.value| && !HasKeys(doc.value[i]))
    ensures LoadedTasks(doc) == []
  {
  }

  /** Distinct entries can map to the same file name, within one section and
      across two sections, so their outputs would overwrite each other if both
      were converted. */
  lemma FileNamesCanCollide()
    ensures "a/b" != "a_b"
    ensures EntryTask("docs", "https://example.com/", "a/b").filename
            == EntryTask("docs", "https://example.com/", "a_b").filename
    ensures EntryTask("a_b", "https://example.com/", "c").filename
            == EntryTask("a", "https://example.com/", "b_c").filename
  {
    assert ReplaceSlashes("a/b") == "a_b";
    assert ReplaceSlashes("a_b") == "a_b";
    assert ReplaceSlashes("c") == "c";
    assert ReplaceSlashes("b_c") == "b_c";
  }
}
