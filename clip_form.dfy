/** The add-clip form (src/components/ClipForm.tsx): three text fields and a submit
    that hands one candidate clip to its caller. */
module ClipForm {
  import opened Types

  /** What the form hands to `onAddClip`: the name as typed and the two parsed times. */
  datatype Candidate = Candidate(name: string, start: real, end: real)

  /** The emptiness test of the submit guard: an empty string is the only falsy one,
      so any one character, "0" or a space included, fills a field. */
  predicate Filled(field: string): (filled: bool)
    ensures filled <==> |field| >= 1
  {
    field != ""
  }

  class Form {
    var name: string
    var start: string
    var end: string

    constructor ()
      ensures name == "" && start == "" && end == ""
    {
      name, start, end := "", "", "";
    }

    method SetName(value: string)
      modifies this`name
      ensures name == value
    {
      name := value;
    }

    method SetStart(value: string)
      modifies this`start
      ensures start == value
    {
      start := value;
    }

    method SetEnd(value: string)
      modifies this`end
      ensures end == value
    {
      end := value;
    }

    /** Submits the form. `parseFloat` stands for the number parser the browser
        provides; the result is the argument of the single `onAddClip` call, or None
        when the guard returns early. The guard only tests for emptiness: "0" is a
        filled field and a start after the end goes through. */
    method Submit(parseFloat: string -> real) returns (emitted: Option<Candidate>)
      modifies this`name, this`start, this`end
      ensures emitted.Some? <==> Filled(old(name)) && Filled(old(start)) && Filled(old(end))
      ensures emitted.None? ==> name == old(name) && start == old(start) && end == old(end)
      ensures emitted.Some? ==>
        && emitted.value == Candidate(old(name), parseFloat(old(start)), parseFloat(old(end)))
        && name == "" && start == "" && end == ""
    {
      if !Filled(name) || !Filled(start) || !Filled(end) {
        return None;
      }
      emitted := Some(Candidate(name, parseFloat(start), parseFloat(end)));
      name := "";
      start := "";
      end := "";
    }
  }

  /** A filled form submits once; the cleared form then refuses to submit again. */
  method SubmitTwice(parseFloat: string -> real)
  {
    var form := new Form();
    form.SetName("Intro");
    form.SetStart("0");
    form.SetEnd("0");
    var first := form.Submit(parseFloat);
    assert first == Some(Candidate("Intro", parseFloat("0"), parseFloat("0")));
    var second := form.Submit(parseFloat);
    assert second == None;
  }
}
