/** The shared record types of the application (app/types.ts). */
module Types {

  datatype Option<+T> = None | Some(value: T)

  /** An artwork as the client keeps it: `critique` is an optional field. */
  datatype Painting = Painting(
    id: string,
    dataUrl: string,
    title: string,
    artist: string,
    critique: Option<string>,
    votes: int,
    timestamp: int)

  datatype ViewMode = HOME | PAINT | GALLERY

  datatype AICritiqueResponse = AICritiqueResponse(title: string, critique: string)

  /** JavaScript falsiness of a string-or-null value: `!x` holds for null and for "". */
  predicate Blank(x: Option<string>) {
    x.None? || x.value == ""
  }

  /** `s || undefined`: an empty string becomes an absent optional field. */
  function OrUndefined(s: string): (r: Option<string>)
    ensures r.None? <==> s == ""
    ensures r.Some? ==> r.value == s
  {
    if s == "" then None else Some(s)
  }
}
