/** The process-wide template cell read by `loadTemplate`. */
module Templates {
  import opened Wrappers

  /** What reading the template file would yield. */
  datatype ReadOutcome = ReadOk(content: string) | ReadFailed(error: string)

  /** The cell afterwards, what the load resolves or rejects with, and whether the file was read. */
  datatype Loaded = Loaded(cell: string, result: Result<string, string>, didRead: bool)

  /** One `loadTemplate` call on a cell holding `cell`; `read` is what the file read would
      yield if it happens. A non-empty cell is returned as it is; an empty one, whether never
      set or set to an empty template, causes a read. */
  function LoadStep(cell: string, read: ReadOutcome): (l: Loaded)
    ensures l.didRead <==> cell == ""
    ensures !l.didRead ==> l.cell == cell && l.result == Ok(cell)
    ensures l.result.Ok? ==> l.cell == l.result.value
    ensures l.result.Err? ==> l.cell == cell && read == ReadFailed(l.result.error)
    ensures l.didRead && read.ReadOk? ==> l.result == Ok(read.content)
    ensures l.didRead && read.ReadFailed? ==> l.result == Err(read.error) && l.cell == cell
  {
    if cell != "" then Loaded(cell, Ok(cell), false)
    else match read
      case ReadFailed(e) => Loaded(cell, Err(e), true)
      case ReadOk(content) => Loaded(content, Ok(content), true)
  }

  /** Successive `loadTemplate` calls starting from `cell`, the i-th call seeing `outcomes[i]`. */
  function Replay(cell: string, outcomes: seq<ReadOutcome>): (ls: seq<Loaded>)
    ensures |ls| == |outcomes|
    decreases |outcomes|
  {
    if outcomes == [] then []
    else
      var first := LoadStep(cell, outcomes[0]);
      [first] + Replay(first.cell, outcomes[1..])
  }

  /** Once the cell holds a non-empty template, every later call returns it and reads nothing. */
  lemma {:induction false} CachedTemplateSticks(cell: string, outcomes: seq<ReadOutcome>)
    requires cell != ""
    ensures forall i :: 0 <= i < |outcomes| ==> Replay(cell, outcomes)[i] == Loaded(cell, Ok(cell), false)
    decreases |outcomes|
  {
    if outcomes != [] {
      CachedTemplateSticks(cell, outcomes[1..]);
    }
  }

  /** The first call that returns a non-empty template fixes what all later calls return. */
  lemma {:induction false} FirstLoadWins(cell: string, outcomes: seq<ReadOutcome>, j: nat, template: string)
    requires j < |outcomes| && template != ""
    requires Replay(cell, outcomes)[j].result == Ok(template)
    ensures forall i :: j < i < |outcomes| ==> Replay(cell, outcomes)[i] == Loaded(template, Ok(template), false)
    decreases j
  {
    var first := LoadStep(cell, outcomes[0]);
    if j == 0 {
      CachedTemplateSticks(template, outcomes[1..]);
    } else {
      FirstLoadWins(first.cell, outcomes[1..], j - 1, template);
    }
  }

  /** As long as only failures or empty templates are read, every call reads the file again. */
  lemma {:induction false} EmptyCellRereads(outcomes: seq<ReadOutcome>)
    requires forall i :: 0 <= i < |outcomes| ==> outcomes[i] == ReadOk("") || outcomes[i].ReadFailed?
    ensures forall i :: 0 <= i < |outcomes| ==> Replay("", outcomes)[i].didRead && Replay("", outcomes)[i].cell == ""
    decreases |outcomes|
  {
    if outcomes != [] {
      EmptyCellRereads(outcomes[1..]);
    }
  }

  /** The `__tmplData__` cell. */
  class TemplateCache {
    var data: string

    constructor ()
      ensures data == ""
    {
      data := "";
    }

    /** `loadTemplate`, with the outcome of the file read it may perform as a parameter. */
    method Load(read: ReadOutcome) returns (result: Result<string, string>, didRead: bool)
      modifies this
      ensures Loaded(data, result, didRead) == LoadStep(old(data), read)
    {
      if data != "" {
        return Ok(data), false;
      }
      didRead := true;
      match read
      case ReadFailed(e) =>
        result := Err(e);
      case ReadOk(content) =>
        data := content;
        result := Ok(data);
    }
  }
}
