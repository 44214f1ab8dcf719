/** The collector SDK: the collection context, section status and the
    `Section` record every collector produces (vmic-sdk/src/lib.rs). */
module Sdk {
  import opened Wrappers

  // ---------------------------------------------------------------------
  // Collection context

  /** Parameters handed to every collector; currently an optional time filter. */
  datatype Context = Context(since: Option<string>)

  /** `CollectionContext::new`: no time filter. */
  function NewContext(): (c: Context)
    ensures Since(c) == None
  {
    Context(None)
  }

  /** `CollectionContext::with_since`. */
  function WithSince(since: string): (c: Context)
    ensures Since(c) == Some(since)
  {
    Context(Some(since))
  }

  /** `CollectionContext::set_since`: replaces (or, with `None`, clears) the filter. */
  function SetSince(c: Context, since: Option<string>): (c': Context)
    ensures Since(c') == since
  {
    c.(since := since)
  }

  /** `CollectionContext::since`. */
  function Since(c: Context): Option<string> {
    c.since
  }

  /** Setting the filter twice keeps only the second value. */
  lemma SetSinceOverrides(c: Context, a: Option<string>, b: Option<string>)
    ensures SetSince(SetSince(c, a), b) == SetSince(c, b)
  {
  }

  // ---------------------------------------------------------------------
  // Section status

  datatype SectionStatus = Success | Degraded | Error

  /** `impl Display for SectionStatus` (also the serialised form). */
  function StatusText(s: SectionStatus): string {
    match s
    case Success => "success"
    case Degraded => "degraded"
    case Error => "error"
  }

  /** Reads a status back from its text. */
  function ParseStatus(text: string): Option<SectionStatus> {
    if text == "success" then Some(Success)
    else if text == "degraded" then Some(Degraded)
    else if text == "error" then Some(Error)
    else None
  }

  /** The status text identifies the status: rendering then reading gives it back,
      and reading accepts nothing but the three rendered texts. */
  lemma StatusTextRoundTrip(s: SectionStatus, text: string)
    ensures ParseStatus(StatusText(s)) == Some(s)
    ensures ParseStatus(text) == Some(s) ==> text == StatusText(s)
  {
  }

  // ---------------------------------------------------------------------
  // Section body, as seen by the health digest

  /** One entry of a storage body's "operating_mounts" array. Each field is
      `None` when the key is absent or holds a value of the wrong JSON type. */
  datatype MountDoc = MountDoc(
    mountPoint: Option<string>,
    fsType: Option<string>,
    operational: Option<bool>,
    readOnly: Option<bool>,
    usageRatio: Option<real>,
    availableBytes: Option<nat>,
    inodesUsageRatio: Option<real>)

  /** A proc body's "memory" → "host" object. */
  datatype HostMemoryDoc = HostMemoryDoc(totalBytes: Option<nat>, availableBytes: Option<nat>)

  /** A proc body's "memory" → "cgroup" object. */
  datatype CgroupMemoryDoc = CgroupMemoryDoc(limitBytes: Option<nat>, usageBytes: Option<nat>)

  /** A proc body's "memory" object. */
  datatype MemoryDoc = MemoryDoc(host: Option<HostMemoryDoc>, cgroup: Option<CgroupMemoryDoc>)

  /** The keys of a section's JSON body that the core reads or writes:
      "operating_mounts" and "memory" (read by the digest rules) and
      "error" (written for a failed collector). Every other key is opaque. */
  datatype Body = Body(
    operatingMounts: Option<seq<MountDoc>>,
    memory: Option<MemoryDoc>,
    error: Option<string>)

  /** A body with none of the keys above. */
  const OpaqueBody := Body(None, None, None)

  // ---------------------------------------------------------------------
  // Sections

  /** The result of one collector for one run. */
  datatype Section = Section(
    id: string,
    title: string,
    status: SectionStatus,
    summary: Option<string>,
    body: Body,
    notes: seq<string>,
    durationMs: Option<nat>)

  /** The section invariant: anything but success carries a summary saying why. */
  predicate Explained(s: Section) {
    s.status != Success ==> s.summary.Some?
  }

  /** `Section::success`. */
  function SuccessSection(id: string, title: string, body: Body): (s: Section)
    ensures s.status == Success && s.summary == None && s.notes == []
    ensures s.id == id && s.title == title && s.body == body
    ensures Explained(s)
  {
    Section(id, title, Success, None, body, [], None)
  }

  /** `Section::degraded`. */
  function DegradedSection(id: string, title: string, summary: string, body: Body): (s: Section)
    ensures s.status == Degraded && s.summary == Some(summary) && s.notes == []
    ensures s.id == id && s.title == title && s.body == body
    ensures Explained(s)
  {
    Section(id, title, Degraded, Some(summary), body, [], None)
  }

  /** `Section::error`: the error text is both the summary and the body's only key. */
  function ErrorSection(id: string, title: string, error: string): (s: Section)
    ensures s.status == Error && s.summary == Some(error) && s.notes == []
    ensures s.id == id && s.title == title
    ensures s.body == Body(None, None, Some(error))
    ensures Explained(s)
  {
    Section(id, title, Error, Some(error), Body(None, None, Some(error)), [], None)
  }

  /** `Section::has_notes`. */
  function HasNotes(s: Section): (b: bool)
    ensures b <==> s.notes != []
  {
    |s.notes| > 0
  }
}
