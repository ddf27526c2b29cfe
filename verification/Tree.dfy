/** The `calendars/` part of the backup tree: event files by name, and the
    events they stand for. */
module Tree {
  import opened Seqs

  datatype EventMeta = EventMeta(
    id: string, uid: Option<string>, calendarId: Option<string>, contentSha256: Option<string>, etag: Option<string>,
    updatedAt: Option<string>)

  /** A file holds text, or JSON that reads as an event's meta. */
  datatype Content = Text(text: string) | MetaJson(meta: EventMeta)

  type Files = map<string, Content>

  const ICS := ".ics"
  const META := ".meta.json"

  predicate EndsWith(s: string, suffix: string) { |suffix| <= |s| && s[|s| - |suffix|..] == suffix }

  /** `trim_end_matches(".meta.json")`: as often as it matches. */
  function Stem(name: string): string
    decreases |name|
  {
    if EndsWith(name, META) then Stem(name[..|name| - |META|]) else name
  }

  function MetaTimes(n: nat): string { if n == 0 then "" else MetaTimes(n - 1) + ".meta.json" }

  /** Every `.meta.json` at the end goes, and nothing else. */
  lemma StemMeaning(name: string) returns (n: nat)
    ensures name == Stem(name) + MetaTimes(n) && !EndsWith(Stem(name), ".meta.json")
  {
    n := StemStrips(name);
  }

  lemma {:induction false} StemStrips(name: string) returns (n: nat)
    ensures name == Stem(name) + MetaTimes(n) && !EndsWith(Stem(name), META)
    decreases |name|
  {
    hide EndsWith;
    if EndsWith(name, META) {
      var shorter := SuffixOff(name, META);
      var k := StemStrips(shorter);
      n := k + 1;
      Assoc(Stem(shorter), MetaTimes(k), META);
    } else {
      n := 0;
      assert name + "" == name;
    }
  }

  lemma SuffixOff(name: string, suffix: string) returns (shorter: string)
    requires EndsWith(name, suffix)
    ensures |suffix| <= |name| && shorter == name[..|name| - |suffix|] && name == shorter + suffix
  {
    shorter := name[..|name| - |suffix|];
  }

  function SafeChar(c: char): char {
    if c == '/' || c == '\\' || c == '\0' || c == '\n' || c == '\r' then '_' else c
  }

  /** `filename_safe` */
  function FilenameSafe(s: string): string { Map(s, SafeChar) }

  // ── what the files stand for ───────────────────────────────────────────

  datatype Entry = Entry(text: string, meta: EventMeta)

  function IcsName(key: string): string { key + ICS }

  function MetaName(key: string): string { key + META }

  function KeyNames(keys: set<string>): set<string> {
    (set k | k in keys :: IcsName(k)) + (set k | k in keys :: MetaName(k))
  }

  /** The directory holds exactly an `.ics` and a `.meta.json` per event. */
  ghost predicate Renders(files: Files, m: map<string, Entry>) {
    && (forall k :: k in m ==> IcsName(k) in files && files[IcsName(k)] == Text(m[k].text))
    && (forall k :: k in m ==> MetaName(k) in files && files[MetaName(k)] == MetaJson(m[k].meta))
    && files.Keys == KeyNames(m.Keys)
  }

  ghost predicate PlainKeys(keys: set<string>) { forall k <- keys :: !EndsWith(k, META) }

  lemma NamesDistinct(a: string, b: string)
    ensures IcsName(a) != MetaName(b)
    ensures IcsName(a) == IcsName(b) ==> a == b
    ensures MetaName(a) == MetaName(b) ==> a == b
  {
    assert IcsName(a)[|a| + 3] == 's' && MetaName(b)[|b| + 9] == 'n';
    assert IcsName(a)[..|IcsName(a)| - 4] == a && IcsName(b)[..|IcsName(b)| - 4] == b;
    assert MetaName(a)[..|MetaName(a)| - 10] == a && MetaName(b)[..|MetaName(b)| - 10] == b;
  }

  /** Names belong to one key only. */
  lemma NamedBy(keys: set<string>, k: string)
    ensures IcsName(k) in KeyNames(keys) <==> k in keys
    ensures MetaName(k) in KeyNames(keys) <==> k in keys
  {
    if IcsName(k) in KeyNames(keys) {
      if j :| j in keys && IcsName(k) == IcsName(j) { NamesDistinct(k, j); }
      else { var j :| j in keys && IcsName(k) == MetaName(j); NamesDistinct(k, j); }
    }
    if MetaName(k) in KeyNames(keys) {
      if j :| j in keys && MetaName(k) == MetaName(j) { NamesDistinct(k, j); }
      else { var j :| j in keys && MetaName(k) == IcsName(j); NamesDistinct(j, k); }
    }
  }

  lemma KeyNamesPlus(keys: set<string>, k: string)
    ensures KeyNames(keys + {k}) == KeyNames(keys) + {IcsName(k), MetaName(k)}
  {
    hide IcsName, MetaName;
  }

  lemma KeyNamesMinus(a: set<string>, b: set<string>)
    ensures KeyNames(a - b) == KeyNames(a) - KeyNames(b)
  {
    hide IcsName, MetaName;
    forall n ensures n in KeyNames(a - b) <==> n in KeyNames(a) && n !in KeyNames(b) {
      if n in KeyNames(a) {
        var k :| k in a && (n == IcsName(k) || n == MetaName(k));
        NamedBy(b, k);
        NamedBy(a - b, k);
      }
    }
  }

  lemma StemOfNames(k: string)
    requires !EndsWith(k, META)
    ensures EndsWith(MetaName(k), META) && Stem(MetaName(k)) == k && !EndsWith(IcsName(k), META)
  {
    assert MetaName(k)[|k + META| - |META|..] == META && MetaName(k)[..|k + META| - |META|] == k;
    assert IcsName(k)[|k + ICS| - 1] == 's' && META[9] == 'n';
  }

  /** Writing both files of an event. */
  function Put(files: Files, key: string, text: string, meta: EventMeta): Files {
    files[IcsName(key) := Text(text)][MetaName(key) := MetaJson(meta)]
  }

  lemma PutRenders(files: Files, m: map<string, Entry>, key: string, text: string, meta: EventMeta)
    requires Renders(files, m)
    ensures Renders(Put(files, key, text, meta), m[key := Entry(text, meta)])
  {
    hide IcsName, MetaName, KeyNames;
    var n := m[key := Entry(text, meta)];
    KeyNamesPlus(m.Keys, key);
    assert n.Keys == m.Keys + {key};
    forall k | k in m && k != key
      ensures IcsName(k) != IcsName(key) && IcsName(k) != MetaName(key) && MetaName(k) != MetaName(key)
          && MetaName(k) != IcsName(key)
    {
      NamesDistinct(k, key);
      NamesDistinct(key, k);
    }
    NamesDistinct(key, key);
  }

  /** The files of these keys removed, where there are any. */
  function Without(files: Files, keys: set<string>): Files { files - KeyNames(keys) }

  lemma WithoutRenders(files: Files, m: map<string, Entry>, keys: set<string>)
    requires Renders(files, m)
    ensures Renders(Without(files, keys), m - keys)
  {
    hide IcsName, MetaName, KeyNames;
    KeyNamesMinus(m.Keys, keys);
    assert (m - keys).Keys == m.Keys - keys;
    forall k | k in m - keys
      ensures IcsName(k) !in KeyNames(keys) && MetaName(k) !in KeyNames(keys)
    {
      NamedBy(keys, k);
    }
  }

  // ── reading the metas ──────────────────────────────────────────────────

  /** `read_local_event_meta` over the names in listing order; None is a meta file
      that does not parse. */
  function ReadMetas(files: Files, names: seq<string>): Option<map<string, EventMeta>>
    decreases |names|
  {
    if names == [] then Some(map[])
    else
      var name := names[|names| - 1];
      var rest := ReadMetas(files, names[..|names| - 1]);
      if rest.None? || !EndsWith(name, META) || name !in files then rest
      else match files[name]
        case MetaJson(m) => Some(rest.value[Stem(name) := m])
        case Text(_) => None
  }

  function Metas(m: map<string, Entry>): map<string, EventMeta> { map k | k in m :: m[k].meta }

  lemma KeyOf(keys: set<string>, name: string) returns (k: string)
    requires name in KeyNames(keys)
    ensures k in keys && (name == IcsName(k) || name == MetaName(k))
  {
    k :| k in keys && (name == IcsName(k) || name == MetaName(k));
  }

  lemma {:induction false} ReadMetasOf(files: Files, m: map<string, Entry>, names: seq<string>)
    requires Renders(files, m) && PlainKeys(m.Keys) && forall n <- names :: n in files
    ensures ReadMetas(files, names).Some?
    ensures ReadMetas(files, names).value == map k | k in m && MetaName(k) in names :: m[k].meta
    decreases |names|
  {
    hide IcsName, MetaName, EndsWith, Stem, KeyNames;
    if names != [] {
      var last := |names| - 1;
      var name, rest := names[last], names[..last];
      ReadMetasOf(files, m, rest);
      assert forall n :: n in names <==> n in rest || n == name;
      var k := KeyOf(m.Keys, name);
      StemOfNames(k);
      forall j | j in m ensures MetaName(j) == name <==> name == MetaName(k) && j == k {
        NamesDistinct(j, k);
        NamesDistinct(k, j);
      }
    }
  }

  lemma ReadMetasRender(files: Files, m: map<string, Entry>, names: seq<string>)
    requires Renders(files, m) && PlainKeys(m.Keys) && forall n :: n in names <==> n in files
    ensures ReadMetas(files, names).Some? && ReadMetas(files, names).value == Metas(m)
  {
    hide IcsName, MetaName, EndsWith, ReadMetas, KeyNames;
    ReadMetasOf(files, m, names);
    assert forall k :: k in m ==> MetaName(k) in names;
  }
}
