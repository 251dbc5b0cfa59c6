/** The one completion call per turn, reduced to what the callers observe:
    a reply whose text may be missing, or a failure whose message may be
    missing. */
module Gateway {
  import opened Wrappers

  datatype Outcome =
    | Ok(content: Option<string>)   // `choices[0].message.content`; None when any link is null or undefined
    | Err(message: Option<string>)  // the thrown error's `message`; None when null or undefined
}
