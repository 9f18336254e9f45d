/** The create-auction form: field edits, the image picker, and the submission to the
    contract with its required-field check and its single error message. */
module Creation {
  import opened Common

  /** The image URL sent to the contract, whatever the form holds. */
  const ShortImageUrl := "https://bit.ly/3Gp7HWx"
  const DefaultDuration := "3600"
  const CreateError := "Erro ao criar leilão. Verifique os dados e tente novamente."

  datatype FormData = FormData(title: string, description: string, imageUrl: string, startingPrice: string, duration: string)

  /** The names of the form's inputs. */
  datatype Field = Title | Description | ImageUrl | StartingPrice | Duration

  function Get(form: FormData, f: Field): string {
    match f
    case Title => form.title
    case Description => form.description
    case ImageUrl => form.imageUrl
    case StartingPrice => form.startingPrice
    case Duration => form.duration
  }

  /** `{ ...prev, [name]: value }`: the named field takes the value, every other field keeps its own. */
  function WithField(form: FormData, f: Field, value: string): (r: FormData)
    ensures Get(r, f) == value
    ensures forall g :: g != f ==> Get(r, g) == Get(form, g)
  {
    match f
    case Title => form.(title := value)
    case Description => form.(description := value)
    case ImageUrl => form.(imageUrl := value)
    case StartingPrice => form.(startingPrice := value)
    case Duration => form.(duration := value)
  }

  /** Writing a field twice keeps the second value, and writing back what a field holds changes nothing. */
  lemma WithFieldLaws(form: FormData, f: Field, v: string, w: string)
    ensures WithField(WithField(form, f, v), f, w) == WithField(form, f, w)
    ensures WithField(form, f, Get(form, f)) == form
  {
  }

  const InitialForm := FormData("", "", "", "", DefaultDuration)

  /** Title, description and starting price must be non-empty; image and duration are not checked. */
  predicate RequiredFilled(form: FormData): (r: bool)
    ensures r <==> forall f :: f != ImageUrl && f != Duration ==> Get(form, f) != ""
    ensures r ==> form != InitialForm
  {
    assert Get(form, Title) == form.title && Get(form, Description) == form.description;
    assert Get(form, StartingPrice) == form.startingPrice;
    form.title != "" && form.description != "" && form.startingPrice != ""
  }

  /** The arguments of `createAuction` (the gas limit aside). */
  datatype CreateCall = CreateCall(title: string, description: string, imageUrl: string, startingPrice: int, duration: string)

  /** The `createAuction` call the submit button issues before its first `await`, if any: none
      when a required field is empty or the price does not parse, both of which throw. */
  function CallFor(form: FormData, parsed: Parsed): (r: Option<CreateCall>)
    ensures r.Some? <==> RequiredFilled(form) && parsed.Wei?
    ensures r.Some? ==>
      r.value == CreateCall(form.title, form.description, ShortImageUrl, parsed.amount, form.duration)
  {
    if !RequiredFilled(form) then None
    else match parsed
      case Unparsable(_) => None
      case Wei(amount) => Some(CreateCall(form.title, form.description, ShortImageUrl, amount, form.duration))
  }

  /** What a submission does: the contract call it makes, if any, and whether it completes. */
  datatype Submission = Submission(call: Option<CreateCall>, created: bool)

  /** The try block of `handleSubmit` when `parseEther` of the starting price gives `parsed`
      and the transaction, if sent, ends as `tx`. */
  function Submit(form: FormData, parsed: Parsed, tx: TxResult): (r: Submission)
    ensures r.call.Some? <==> RequiredFilled(form) && parsed.Wei?
    ensures r.call.Some? ==>
      r.call.value == CreateCall(form.title, form.description, ShortImageUrl, parsed.amount, form.duration)
    ensures r.created <==> r.call.Some? && tx.Mined?
  {
    var call := CallFor(form, parsed);
    Submission(call, call.Some? && tx.Mined?)
  }

  /** The image field of the form never reaches the contract. */
  lemma ImageUrlIgnored(form: FormData, url: string, parsed: Parsed, tx: TxResult)
    ensures Submit(WithField(form, ImageUrl, url), parsed, tx) == Submit(form, parsed, tx)
  {
  }

  /** The state of the form component. `preview` is the object URL of the chosen image. */
  class CreateAuction {
    var form: FormData
    var isLoading: bool
    var error: string
    var preview: Option<string>

    constructor ()
      ensures form == InitialForm && !isLoading && error == "" && preview == None
    {
      form, isLoading, error, preview := InitialForm, false, "", None;
    }

    /** `handleChange` for the input named `f`. */
    method HandleChange(f: Field, value: string)
      modifies this`form
      ensures form == WithField(old(form), f, value)
    {
      form := WithField(form, f, value);
    }

    /** `handleImageChange`: `file` is the object URL created for the chosen file, `None` when
        no file was chosen. The image field is set to the fixed short URL. */
    method HandleImageChange(file: Option<string>)
      modifies this`form, this`preview
      ensures file.None? ==> form == old(form) && preview == old(preview)
      ensures file.Some? ==> preview == file && form == WithField(old(form), ImageUrl, ShortImageUrl)
    {
      if file.Some? {
        preview := file;
        form := form.(imageUrl := ShortImageUrl);
      }
    }

    /** `handleSubmit` up to its first `await`, which all runs at the click: the required-field
        check and `parseEther` of the price read the form now. A throw reaches the catch and
        finally blocks at once; otherwise `createAuction` is called (returned as `call`) with
        loading on. */
    method BeginSubmit(parse: string -> Parsed) returns (call: Option<CreateCall>)
      modifies this`isLoading, this`error
      ensures call == CallFor(form, parse(form.startingPrice))
      ensures call.Some? ==> isLoading && error == ""
      ensures call.None? ==> !isLoading && error == CreateError
    {
      isLoading := true;
      error := "";
      call := None;
      if form.title == "" || form.description == "" || form.startingPrice == "" {
        error := CreateError;
        isLoading := false;
        return;
      }
      var parsed := parse(form.startingPrice);
      if parsed.Unparsable? {
        error := CreateError;
        isLoading := false;
        return;
      }
      call := Some(CreateCall(form.title, form.description, ShortImageUrl, parsed.amount, form.duration));
    }

    /** The rest of `handleSubmit`, once the transaction and its `wait()` have ended as `tx`.
        It reads nothing the user may have edited meanwhile. Returns whether
        `onAuctionCreated` ran. The form is never cleared. */
    method FinishSubmit(tx: TxResult, hasCallback: bool) returns (notified: bool)
      requires isLoading
      modifies this`isLoading, this`error
      ensures notified <==> tx.Mined? && hasCallback
      ensures tx.Mined? ==> error == old(error)
      ensures tx.Failed? ==> error == CreateError
      ensures !isLoading
    {
      notified := false;
      if tx.Failed? {
        error := CreateError;
      } else if hasCallback {
        notified := true;
      }
      isLoading := false;
    }

    /** `handleSubmit` run without interruption. */
    method HandleSubmit(parse: string -> Parsed, tx: TxResult, hasCallback: bool)
      returns (call: Option<CreateCall>, notified: bool)
      modifies this`isLoading, this`error
      ensures call == Submit(form, parse(form.startingPrice), tx).call
      ensures notified <==> Submit(form, parse(form.startingPrice), tx).created && hasCallback
      ensures error == if Submit(form, parse(form.startingPrice), tx).created then "" else CreateError
      ensures !isLoading
    {
      call := BeginSubmit(parse);
      notified := false;
      if call.Some? {
        notified := FinishSubmit(tx, hasCallback);
      }
    }
  }
}
