/** The jsonlines files a run appends to, modelled as one log of
    `(file name, record)` pairs in write order. Reading them back is not
    modelled. */
module JsonLines {
  import opened Wrappers

  class Sink<T> {
    var written: seq<(string, T)>

    constructor ()
      ensures written == []
    {
      written := [];
    }

    /** `with jsonlines.open(file, 'a') as writer: writer.write(record)`,
        skipped when there is no file. */
    method Append(record: T, file: Option<string>)
      modifies this
      ensures written == old(written) + (if file.Some? then [(file.value, record)] else [])
    {
      if file.Some? {
        written := written + [(file.value, record)];
      }
    }
  }
}
