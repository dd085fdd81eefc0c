/**
  * The WhatsApp message the booking page sends (js/booking.js lines 10-16 and 63-83,
  * and the URL built at lines 158-159): a fixed Portuguese template filled with the
  * form's values, then passed through `encodeURIComponent`.
  *
  * The date is rendered by the browser (`new Date(...).toLocaleDateString('pt-BR')`),
  * so it enters here as the already formatted text `formattedDate`.
  */
module BookingMessage {
  import opened Wrappers
  import opened JsText
  import opened BookingForm
  import opened UriComponent

  /** The `services` object: service key to its label. */
  const Services: map<string, string> := map[
    "maintenance" := "Manutenção Geral",
    "electrical" := "Elétrica Automotiva",
    "brakes" := "Freios e Suspensão",
    "diagnostic" := "Diagnóstico Computadorizado",
    "other" := "Outro Serviço"
  ]

  /** The business's WhatsApp number the link is addressed to. */
  const WhatsAppPhone: string := "5579999727920"

  const VehiclePlaceholder: string := "Não informado"

  // ---------------------------------------------------------------------------
  // The service label
  // ---------------------------------------------------------------------------

  /**
    * The members every plain JavaScript object inherits from `Object.prototype`;
    * `services[key]` finds these too.
    */
  const InheritedMembers: set<string> := {
    "constructor", "hasOwnProperty", "isPrototypeOf", "propertyIsEnumerable",
    "toLocaleString", "toString", "valueOf", "__defineGetter__", "__defineSetter__",
    "__lookupGetter__", "__lookupSetter__", "__proto__"
  }

  /**
    * The text a template literal makes of an inherited member: `__proto__` is
    * `Object.prototype` itself, `constructor` is the `Object` function, and the
    * rest are built-in methods named after the key (rendered as V8 renders them).
    */
  function InheritedText(key: string): string {
    if key == "__proto__" then "[object Object]"
    else if key == "constructor" then "function Object() { [native code] }"
    else "function " + key + "() { [native code] }"
  }

  /**
    * `services[formData.service] || formData.service` as written: the lookup also
    * finds inherited members, whose values are truthy, so the raw key is not
    * always the fallback.
    */
  function ServiceLabelAsWritten(key: string): string {
    if key in Services then Services[key]
    else if key in InheritedMembers then InheritedText(key)
    else key
  }

  /** The lookup as intended: the catalog label for a catalog key, the raw key otherwise. */
  function ServiceLabel(key: string): string {
    if key in Services then Services[key] else key
  }

  /** For the key "constructor" the lookup as written yields a function's source text. */
  lemma InheritedKeyIsNotFallback()
    ensures ServiceLabelAsWritten("constructor") == "function Object() { [native code] }"
    ensures ServiceLabelAsWritten("constructor") != ServiceLabel("constructor")
  {
    assert "constructor" !in Services;
  }

  /** Away from the inherited member names the two lookups agree. */
  lemma LookupsAgreeOffPrototype(key: string)
    requires key !in InheritedMembers
    ensures ServiceLabelAsWritten(key) == ServiceLabel(key)
  {
  }

  /** The five catalog keys map to their labels, and no other key is relabelled. */
  lemma ServiceLabelCatalog(key: string)
    ensures ServiceLabel(key) != key <==> key in Services
    ensures ServiceLabel("maintenance") == "Manutenção Geral"
    ensures ServiceLabel("electrical") == "Elétrica Automotiva"
    ensures ServiceLabel("brakes") == "Freios e Suspensão"
    ensures ServiceLabel("diagnostic") == "Diagnóstico Computadorizado"
    ensures ServiceLabel("other") == "Outro Serviço"
  {
    if key in Services {
      assert Services[key] != key;
    }
  }

  // ---------------------------------------------------------------------------
  // The template
  // ---------------------------------------------------------------------------

  /** `formData.vehicle || 'Não informado'`: only the empty string is replaced. */
  function VehicleText(vehicle: string): string {
    if vehicle != "" then vehicle else VehiclePlaceholder
  }

  /** The optional message line, present only for a non-empty message. */
  function NoteText(message: string): string {
    if message != "" then "\n💬 Mensagem: " + message else ""
  }

  // The template's fixed text, between the interpolated values.
  const Opening: string := "Olá! Gostaria de agendar um serviço " + "na Empire Soluções Automotivas.\n\n"
    + "*Informações do Agendamento:*\n" + "📝 Nome: "
  const EmailCaption: string := "\n📧 Email: "
  const PhoneCaption: string := "\n📱 Telefone: "
  const ServiceCaption: string := "\n🔧 Serviço: "
  const VehicleCaption: string := "\n🚗 Veículo: "
  const DateCaption: string := "\n📅 Data: "
  const TimeCaption: string := "\n⏰ Horário: "
  const Closing: string := "\n\nObrigado!"

  /**
    * The template's parts in order: its fixed text at the even positions and the
    * interpolated values at the odd ones (1 name, 3 e-mail, 5 phone, 7 service label,
    * 9 vehicle, 11 date, 13 time, 15 message line).
    */
  function MessagePieces(f: FormData, formattedDate: string): seq<string> {
    [ Opening, f.name, EmailCaption, f.email, PhoneCaption, f.phone,
      ServiceCaption, ServiceLabel(f.service), VehicleCaption, VehicleText(f.vehicle),
      DateCaption, formattedDate, TimeCaption, f.time, "\n", NoteText(f.message), Closing ]
  }

  /** The text of the message, before encoding. */
  function MessageText(f: FormData, formattedDate: string): string {
    Concat(MessagePieces(f, formattedDate))
  }

  /** `generateWhatsAppMessage(formData)`. */
  function GenerateWhatsAppMessage(f: FormData, formattedDate: string): string {
    EncodeUriComponent(MessageText(f, formattedDate))
  }

  const WhatsAppUrlPrefix: string := "https://wa.me/" + WhatsAppPhone + "?text="

  /** The deep link opened by the submit handler. */
  function WhatsAppUrl(f: FormData, formattedDate: string): string {
    WhatsAppUrlPrefix + GenerateWhatsAppMessage(f, formattedDate)
  }

  // ---------------------------------------------------------------------------
  // Properties
  // ---------------------------------------------------------------------------

  /**
    * The generated message is URL-safe text (unescaped characters and `%XX`
    * triples) that decodes back to the filled-in template.
    */
  lemma GeneratedMessageDecodes(f: FormData, formattedDate: string)
    ensures IsEncodedForm(GenerateWhatsAppMessage(f, formattedDate))
    ensures DecodeUriComponent(GenerateWhatsAppMessage(f, formattedDate)) == Some(MessageText(f, formattedDate))
  {
    EncodedFormOfEncode(MessageText(f, formattedDate));
    DecodeEncode(MessageText(f, formattedDate));
  }

  /** The URL's query value decodes back to the message text. */
  lemma UrlCarriesMessage(f: FormData, formattedDate: string)
    ensures |WhatsAppUrl(f, formattedDate)| >= |WhatsAppUrlPrefix|
    ensures WhatsAppUrl(f, formattedDate)[..|WhatsAppUrlPrefix|] == WhatsAppUrlPrefix
    ensures DecodeUriComponent(WhatsAppUrl(f, formattedDate)[|WhatsAppUrlPrefix|..])
      == Some(MessageText(f, formattedDate))
  {
    var url := WhatsAppUrl(f, formattedDate);
    assert url[|WhatsAppUrlPrefix|..] == GenerateWhatsAppMessage(f, formattedDate);
    GeneratedMessageDecodes(f, formattedDate);
  }

  /**
    * The decoded message shows the submitted name, e-mail, phone and time, the
    * service label and the formatted date, and the vehicle line shows the field or,
    * for an empty field, the placeholder.
    */
  lemma MessageShowsFields(f: FormData, formattedDate: string)
    ensures IsInfix(f.name, MessageText(f, formattedDate))
    ensures IsInfix(f.email, MessageText(f, formattedDate))
    ensures IsInfix(f.phone, MessageText(f, formattedDate))
    ensures IsInfix(ServiceLabel(f.service), MessageText(f, formattedDate))
    ensures IsInfix(VehicleCaption + VehicleText(f.vehicle) + DateCaption, MessageText(f, formattedDate))
    ensures IsInfix(formattedDate, MessageText(f, formattedDate))
    ensures IsInfix(f.time, MessageText(f, formattedDate))
  {
    var ps := MessagePieces(f, formattedDate);
    PieceInfix(ps, 1);
    PieceInfix(ps, 3);
    PieceInfix(ps, 5);
    PieceInfix(ps, 7);
    PieceInfix(ps, 11);
    PieceInfix(ps, 13);
    var run := ps[8..11];
    PieceRunInfix(ps, 8, 11);
    assert run[1..][1..][1..] == [];
    assert Concat(run[1..][1..]) == run[2];
    assert Concat(run[1..]) == run[1] + run[2];
    assert Concat(run) == run[0] + run[1] + run[2];
  }

  /** The vehicle line shows the placeholder exactly when the field is empty or is the placeholder itself. */
  lemma VehiclePlaceholderIff(vehicle: string)
    ensures VehicleText(vehicle) == VehiclePlaceholder <==> vehicle == "" || vehicle == VehiclePlaceholder
  {
  }

  /** None of the template's fixed text contains the 💬 marker. */
  lemma FixedTextHasNoMarker()
    ensures '💬' !in Opening && '💬' !in EmailCaption && '💬' !in PhoneCaption
    ensures '💬' !in ServiceCaption && '💬' !in VehicleCaption && '💬' !in DateCaption
    ensures '💬' !in TimeCaption && '💬' !in Closing
  {
    OpeningHasNoMarker();
  }

  lemma OpeningHasNoMarker()
    ensures '💬' !in Opening
  {
    assert '💬' !in "Olá! Gostaria de agendar um serviço ";
    assert '💬' !in "na Empire Soluções Automotivas.\n\n";
    assert '💬' !in "*Informações do Agendamento:*\n";
  }

  /**
    * The message line is there exactly when a message was given (whitespace counts),
    * provided the other values do not themselves contain the 💬 marker.
    */
  lemma MessageLineIff(f: FormData, formattedDate: string)
    requires '💬' !in f.name && '💬' !in f.email && '💬' !in f.phone && '💬' !in f.time
    requires '💬' !in ServiceLabel(f.service) && '💬' !in f.vehicle && '💬' !in formattedDate
    ensures '💬' in MessageText(f, formattedDate) <==> f.message != ""
    ensures f.message != "" ==> IsInfix("\n💬 Mensagem: " + f.message, MessageText(f, formattedDate))
  {
    var ps := MessagePieces(f, formattedDate);
    ConcatHas(ps, '💬');
    FixedTextHasNoMarker();
    assert '💬' !in ps[9];
    if f.message != "" {
      assert ps[15][1] == '💬';
      PieceInfix(ps, 15);
    }
  }
}
