/**
 * The patient's five-step booking wizard (src/app/patient/agendar/page.tsx):
 * service, date, time, payment receipt, confirmation. The page state is a
 * class whose handlers change it; the outcomes of the requests the page
 * sends (the receipt upload, the booking itself) are parameters.
 */
module BookingWizard {
  import opened Wrappers

  /** The picked receipt: its MIME type and its size in bytes. */
  datatype ReceiptFile = ReceiptFile(mimeType: string, size: int)

  /** 5 MiB. */
  const MaxReceiptSize: int := 5 * 1024 * 1024

  /** The types the picker accepts (the upload route also accepts "image/jpg"). */
  const AcceptedTypes: seq<string> := ["image/jpeg", "image/png", "image/webp"]

  const BadType: string := "Tipo de archivo no permitido. Usa JPG, PNG o WebP."
  const TooLarge: string := "El archivo es demasiado grande. Máximo 5MB."
  const PickService: string := "Por favor selecciona un servicio"
  const PickDate: string := "Por favor selecciona una fecha"
  const PickTime: string := "Por favor selecciona un horario"
  const PickReceipt: string := "Por favor sube tu comprobante de pago"
  const UploadError: string := "Error al subir comprobante"
  const MissingData: string := "Faltan datos requeridos"
  const BookingError: string := "Error al crear cita"
  const BookingThrew: string := "Error al crear cita. Intenta de nuevo."

  /** The checks of `handleFileSelect`, type first: `None` when the file is accepted, otherwise the message. */
  function FileCheck(file: ReceiptFile): (r: Option<string>)
    ensures r.None? <==> file.mimeType in AcceptedTypes && file.size <= MaxReceiptSize
    ensures file.mimeType !in AcceptedTypes ==> r == Some(BadType)
    ensures file.mimeType in AcceptedTypes && file.size > MaxReceiptSize ==> r == Some(TooLarge)
  {
    if file.mimeType !in AcceptedTypes then Some(BadType)
    else if file.size > MaxReceiptSize then Some(TooLarge)
    else None
  }

  /** Exactly 5 MiB is accepted, one byte more is not; "image/jpg" is refused by the picker. */
  lemma FileCheckBoundaries()
    ensures FileCheck(ReceiptFile("image/png", 5242880)).None?
    ensures FileCheck(ReceiptFile("image/png", 5242881)) == Some(TooLarge)
    ensures FileCheck(ReceiptFile("image/jpg", 1)) == Some(BadType)
  {
    assert "image/png" == AcceptedTypes[1];
    assert "image/jpg" != AcceptedTypes[0] && "image/jpg" != AcceptedTypes[1] && "image/jpg" != AcceptedTypes[2];
  }

  /** `validateStep`: `None` when the current step may be left forward, otherwise its message. */
  function ValidateStep(step: int, service: Option<string>, date: string, time: string, receipt: Option<ReceiptFile>): (r: Option<string>)
    ensures step == 1 ==> (r.None? <==> service.Some?)
    ensures step == 2 ==> (r.None? <==> date != "")
    ensures step == 3 ==> (r.None? <==> time != "")
    ensures step == 4 ==> (r.None? <==> receipt.Some?)
    ensures step !in {1, 2, 3, 4} ==> r.None?
    ensures r.Some? ==> r.value in {PickService, PickDate, PickTime, PickReceipt}
  {
    if step == 1 && service.None? then Some(PickService)
    else if step == 2 && date == "" then Some(PickDate)
    else if step == 3 && time == "" then Some(PickTime)
    else if step == 4 && receipt.None? then Some(PickReceipt)
    else None
  }

  /**
   * The upload request's outcome: an OK response with its `url` (possibly
   * empty), or a failure with the response's `error` ("" when it has none or
   * the request throws).
   */
  datatype UploadOutcome = Uploaded(url: string) | UploadFailed(error: string)

  /** The booking request's outcome: OK, a refusal with the response's `error`, or a throw. */
  datatype BookingOutcome = Booked | Refused(error: string) | Threw

  /** The JSON body `handleSubmit` posts; `paymentReceiptUrl` is `None` for null. */
  datatype BookingRequest = BookingRequest(serviceId: string, doctorId: string, date: string, time: string,
                                           notes: string, paymentReceiptUrl: Option<string>)

  /** `handleSubmit`'s guard: everything the booking needs has been chosen. */
  predicate ReadyToSubmit(service: Option<string>, doctor: string, date: string, time: string) {
    service.Some? && doctor != "" && date != "" && time != ""
  }

  /** `data.error || fallback`. */
  function ErrorOr(error: string, fallback: string): (r: string)
    ensures r != ""  <==> error != "" || fallback != ""
    ensures error != "" ==> r == error
  {
    if error != "" then error else fallback
  }

  /** The page state. `selectedService` holds the chosen service's id. */
  class Wizard {
    var currentStep: int
    var error: string
    var selectedService: Option<string>
    var selectedDoctor: string
    var selectedDate: string
    var selectedTime: string
    var notes: string
    var receiptFile: Option<ReceiptFile>
    var receiptPreview: string
    var receiptUrl: string
    var loading: bool

    constructor()
      ensures currentStep == 1 && error == "" && !loading
      ensures selectedService.None? && selectedDoctor == "" && selectedDate == "" && selectedTime == "" && notes == ""
      ensures receiptFile.None? && receiptPreview == "" && receiptUrl == ""
    {
      currentStep := 1;
      error := "";
      selectedService := None;
      selectedDoctor := "";
      selectedDate := "";
      selectedTime := "";
      notes := "";
      receiptFile := None;
      receiptPreview := "";
      receiptUrl := "";
      loading := false;
    }

    /** `fetchDoctors`: on an OK response the first doctor is selected, when there is one. */
    method LoadDoctors(doctorIds: Option<seq<string>>)
      modifies this
      ensures doctorIds.Some? && |doctorIds.value| > 0 ==> selectedDoctor == doctorIds.value[0]
      ensures !(doctorIds.Some? && |doctorIds.value| > 0) ==> selectedDoctor == old(selectedDoctor)
      ensures currentStep == old(currentStep) && error == old(error) && receiptFile == old(receiptFile) && receiptUrl == old(receiptUrl)
    {
      if doctorIds.Some? && |doctorIds.value| > 0 {
        selectedDoctor := doctorIds.value[0];
      }
    }

    /**
     * `handleFileSelect`: an accepted file replaces the current one, clears
     * the error and gets `preview` (the data URL the reader produces); a
     * refused file only sets the message. The uploaded URL is kept either
     * way, so a file picked after an upload is not uploaded again.
     */
    method HandleFileSelect(file: Option<ReceiptFile>, preview: string)
      modifies this
      ensures file.None? ==> receiptFile == old(receiptFile) && error == old(error) && receiptPreview == old(receiptPreview)
      ensures file.Some? && FileCheck(file.value).Some? ==>
        receiptFile == old(receiptFile) && error == FileCheck(file.value).value && receiptPreview == old(receiptPreview)
      ensures file.Some? && FileCheck(file.value).None? ==> receiptFile == file && error == "" && receiptPreview == preview
      ensures receiptUrl == old(receiptUrl) && currentStep == old(currentStep)
    {
      if file.None? {
        return;
      }
      var check := FileCheck(file.value);
      if check.Some? {
        error := check.value;
        return;
      }
      receiptFile := file;
      error := "";
      receiptPreview := preview;
    }

    /** `removeReceipt`: file, preview and uploaded URL go together. */
    method RemoveReceipt()
      modifies this
      ensures receiptFile.None? && receiptPreview == "" && receiptUrl == ""
      ensures currentStep == old(currentStep) && error == old(error)
    {
      receiptFile := None;
      receiptPreview := "";
      receiptUrl := "";
    }

    /**
     * `uploadReceipt`: nothing without a file; the stored URL, without a new
     * request, once there is one; otherwise the outcome of the upload.
     */
    method UploadReceipt(outcome: UploadOutcome) returns (url: Option<string>)
      modifies this
      ensures receiptFile.None? ==> url.None? && receiptUrl == old(receiptUrl) && error == old(error)
      ensures receiptFile.Some? && old(receiptUrl) != "" ==> url == Some(old(receiptUrl)) && receiptUrl == old(receiptUrl) && error == old(error)
      ensures receiptFile.Some? && old(receiptUrl) == "" && outcome.Uploaded? ==>
        url == Some(outcome.url) && receiptUrl == outcome.url && error == old(error)
      ensures receiptFile.Some? && old(receiptUrl) == "" && outcome.UploadFailed? ==>
        url.None? && receiptUrl == old(receiptUrl) && error == ErrorOr(outcome.error, UploadError)
      ensures receiptFile == old(receiptFile) && receiptPreview == old(receiptPreview)
      ensures currentStep == old(currentStep) && loading == old(loading)
      ensures selectedService == old(selectedService) && selectedDoctor == old(selectedDoctor) && notes == old(notes)
      ensures selectedDate == old(selectedDate) && selectedTime == old(selectedTime)
    {
      if receiptFile.None? {
        return None;
      }
      if receiptUrl != "" {
        return Some(receiptUrl);
      }
      match outcome
      case Uploaded(u) =>
        receiptUrl := u;
        url := Some(u);
      case UploadFailed(e) =>
        error := ErrorOr(e, UploadError);
        url := None;
    }

    /**
     * `handleNext`: the step goes up by one when it validates, except that
     * leaving step 4 with a file not yet uploaded needs an upload that
     * yields a non-empty URL.
     */
    method HandleNext(outcome: UploadOutcome)
      modifies this
      ensures var check := ValidateStep(old(currentStep), old(selectedService), old(selectedDate), old(selectedTime), old(receiptFile));
        var uploads := old(currentStep) == 4 && old(receiptFile).Some? && old(receiptUrl) == "";
        && (check.Some? ==> currentStep == old(currentStep) && error == check.value && receiptUrl == old(receiptUrl))
        && (check.None? && !uploads ==> currentStep == old(currentStep) + 1 && error == "" && receiptUrl == old(receiptUrl))
        && (check.None? && uploads && outcome.Uploaded? ==>
              receiptUrl == outcome.url && error == ""
              && currentStep == (if outcome.url != "" then old(currentStep) + 1 else old(currentStep)))
        && (check.None? && uploads && outcome.UploadFailed? ==>
              currentStep == old(currentStep) && receiptUrl == old(receiptUrl) && error == ErrorOr(outcome.error, UploadError))
      ensures receiptFile == old(receiptFile) && selectedService == old(selectedService)
      ensures selectedDate == old(selectedDate) && selectedTime == old(selectedTime)
    {
      error := "";
      var check := ValidateStep(currentStep, selectedService, selectedDate, selectedTime, receiptFile);
      if check.Some? {
        error := check.value;
        return;
      }
      if currentStep == 4 && receiptFile.Some? && receiptUrl == "" {
        var url := UploadReceipt(outcome);
        if url.None? || url.value == "" {
          return;
        }
      }
      currentStep := currentStep + 1;
    }

    /** `handleBack`: one step back, no error. */
    method HandleBack()
      modifies this
      ensures currentStep == old(currentStep) - 1 && error == ""
      ensures receiptFile == old(receiptFile) && receiptUrl == old(receiptUrl)
    {
      currentStep := currentStep - 1;
      error := "";
    }

    /**
     * `handleSubmit`: refused with a message when a choice is missing;
     * otherwise uploads a pending receipt (giving up if that fails) and
     * returns the body it posts, then reacts to the booking outcome.
     * `navigated` stands for the redirect to the appointment list.
     */
    method HandleSubmit(upload: UploadOutcome, booking: BookingOutcome) returns (request: Option<BookingRequest>, navigated: bool)
      modifies this
      ensures !ReadyToSubmit(old(selectedService), old(selectedDoctor), old(selectedDate), old(selectedTime)) ==>
        request.None? && !navigated && error == MissingData && loading == old(loading) && receiptUrl == old(receiptUrl)
      ensures ReadyToSubmit(old(selectedService), old(selectedDoctor), old(selectedDate), old(selectedTime)) ==> !loading
      ensures navigated ==> request.Some? && booking.Booked?
      ensures request.Some? ==>
        && ReadyToSubmit(old(selectedService), old(selectedDoctor), old(selectedDate), old(selectedTime))
        && request.value.serviceId == old(selectedService).value && request.value.doctorId == old(selectedDoctor)
        && request.value.date == old(selectedDate) && request.value.time == old(selectedTime) && request.value.notes == old(notes)
        && (request.value.paymentReceiptUrl.Some? <==> receiptUrl != "")
        && (request.value.paymentReceiptUrl.Some? ==> request.value.paymentReceiptUrl.value == receiptUrl)
        && (old(receiptUrl) != "" ==> receiptUrl == old(receiptUrl))
        && (navigated <==> booking.Booked?)
      ensures request.None? && ReadyToSubmit(old(selectedService), old(selectedDoctor), old(selectedDate), old(selectedTime)) ==>
        old(receiptFile).Some? && old(receiptUrl) == ""
      ensures request.None? && ReadyToSubmit(old(selectedService), old(selectedDoctor), old(selectedDate), old(selectedTime)) ==>
        error == (if upload.UploadFailed? then ErrorOr(upload.error, UploadError) else "")
      ensures request.Some? && booking.Booked? ==> error == ""
      ensures request.Some? && booking.Refused? ==> error == ErrorOr(booking.error, BookingError)
      ensures request.Some? && booking.Threw? ==> error == BookingThrew
      ensures currentStep == old(currentStep) && receiptFile == old(receiptFile) && receiptPreview == old(receiptPreview)
      ensures selectedService == old(selectedService) && selectedDoctor == old(selectedDoctor) && notes == old(notes)
      ensures selectedDate == old(selectedDate) && selectedTime == old(selectedTime)
    {
      navigated := false;
      if !ReadyToSubmit(selectedService, selectedDoctor, selectedDate, selectedTime) {
        error := MissingData;
        return None, false;
      }
      loading := true;
      error := "";
      var finalReceiptUrl := receiptUrl;
      if receiptFile.Some? && receiptUrl == "" {
        var url := UploadReceipt(upload);
        if url.None? || url.value == "" {
          loading := false;
          return None, false;
        }
        finalReceiptUrl := url.value;
      }
      request := Some(BookingRequest(selectedService.value, selectedDoctor, selectedDate, selectedTime, notes,
                                     if finalReceiptUrl == "" then None else Some(finalReceiptUrl)));
      match booking {
        case Booked =>
          navigated := true;
        case Refused(e) =>
          error := ErrorOr(e, BookingError);
        case Threw =>
          error := BookingThrew;
      }
      loading := false;
    }
  }
}
