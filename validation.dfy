/** The request-body schemas and `validateRequest`: a schema is a list of keys, each
    with a rule and a required flag; validation collects every error of every key
    (it does not stop at the first) and, when there is none, replaces the body with
    the converted values of the schema's keys only (unknown keys are stripped). */
module Validation {
  import opened Base
  import opened Text

  /** A JSON body value. `JFrac` is a number that is not an integer. */
  datatype JVal = JStr(s: string) | JNum(n: int) | JFrac | JBool(b: bool) | JNull | JObj

  type Body = map<string, JVal>

  /** The checks the validator delegates to its own parsers: e-mail address, ISO date
      and URI syntax. */
  datatype Formats = Formats(isEmail: string -> bool, isIsoDate: string -> bool, isUri: string -> bool)

  datatype Pattern = AnyText | DigitsOnly | ClockTime
  datatype Format = Plain | EmailAddress | UriText

  datatype Rule =
    | Text(min: nat, max: Option<nat>, length: Option<nat>, allowEmpty: bool,
           pattern: Pattern, valid: seq<string>, format: Format)
    | Integer(lo: Option<int>, hi: Option<int>)
    | Date
    | Confirms(other: string)

  datatype Key = Key(name: string, rule: Rule, required: bool)

  type Schema = seq<Key>

  function PlainText(min: nat, max: Option<nat>, allowEmpty: bool): Rule
  {
    Text(min, max, None, allowEmpty, AnyText, [], Plain)
  }

  /** `voto`. */
  const Voto: Schema := [
    Key("atividade_id", Integer(None, None), true),
    Key("pontuacao", Integer(Some(1), Some(5)), true),
    Key("prioridade_usuario", Integer(Some(1), Some(10)), false),
    Key("comentario", PlainText(0, Some(500), true), false)
  ]

  /** `sessao`. */
  const Sessao: Schema := [
    Key("titulo", PlainText(5, Some(200), false), true),
    Key("descricao", PlainText(0, None, true), false),
    Key("data", Date, true),
    Key("horario", Text(0, None, None, false, ClockTime, [], Plain), true),
    Key("duracao", Integer(Some(1), Some(8)), false),
    Key("distrito", PlainText(0, None, false), true),
    Key("provincia", PlainText(0, None, false), true),
    Key("facilitador_id", Integer(None, None), false),
    Key("participantes_previstos", Integer(Some(1), Some(1000)), false),
    Key("tipo", Text(0, None, None, false, AnyText, ["presencial", "virtual", "hibrido"], Plain), false),
    Key("localizacao", PlainText(0, None, true), false),
    Key("link_virtual", Text(0, None, None, true, AnyText, [], UriText), false),
    Key("observacoes", PlainText(0, None, true), false)
  ]

  /** `verificarCodigo`. */
  const VerificarCodigo: Schema := [
    Key("email", Text(0, None, None, false, AnyText, [], EmailAddress), true),
    Key("codigo", Text(0, None, Some(6), false, DigitsOnly, [], Plain), true)
  ]

  /** `redefinirSenha`. */
  const RedefinirSenha: Schema := [
    Key("token", PlainText(0, None, false), true),
    Key("nova_senha", PlainText(6, None, false), true),
    Key("confirmar_senha", Confirms("nova_senha"), true)
  ]

  /** `alterarSenha`. */
  const AlterarSenha: Schema := [
    Key("senha_atual", PlainText(0, None, false), true),
    Key("nova_senha", PlainText(6, None, false), true),
    Key("confirmar_senha", Confirms("nova_senha"), true)
  ]

  // ---- the clock-time pattern ^([0-1]?[0-9]|2[0-3]):[0-5][0-9]$ ----

  /** `[0-1]?[0-9]|2[0-3]`. */
  predicate HourPart(h: string)
  {
    || (|h| == 1 && IsDigit(h[0]))
    || (|h| == 2 && '0' <= h[0] <= '1' && IsDigit(h[1]))
    || (|h| == 2 && h[0] == '2' && '0' <= h[1] <= '3')
  }

  /** `[0-5][0-9]`. */
  predicate MinutePart(m: string)
  {
    |m| == 2 && '0' <= m[0] <= '5' && IsDigit(m[1])
  }

  /** The anchored pattern: the minutes are the last two characters, so the colon is
      the third from the end. */
  predicate MatchesClockTime(s: string)
  {
    |s| >= 3 && s[|s| - 3] == ':' && HourPart(s[..|s| - 3]) && MinutePart(s[|s| - 2..])
  }

  predicate AllDigits(s: string)
  {
    forall i :: 0 <= i < |s| ==> IsDigit(s[i])
  }

  /** What the pattern means: one or two digits of hours below 24 (a leading zero
      allowed), a colon, and two digits of minutes below 60. */
  lemma ClockTimeMeaning(s: string)
    ensures MatchesClockTime(s) <==>
      && (|s| == 4 || |s| == 5) && s[|s| - 3] == ':'
      && AllDigits(s[..|s| - 3]) && AllDigits(s[|s| - 2..])
      && DecimalValue(s[..|s| - 3]) < 24 && DecimalValue(s[|s| - 2..]) < 60
  {
    if |s| == 4 || |s| == 5 {
      var h, m := s[..|s| - 3], s[|s| - 2..];
      if AllDigits(m) {
        TwoDigits(m);
      }
      if AllDigits(h) {
        if |h| == 2 {
          TwoDigits(h);
        } else {
          assert h[..0] == [];
          assert DecimalValue(h) == DigitValue(h[0]);
        }
      }
    }
  }

  lemma TwoDigits(s: string)
    requires |s| == 2 && AllDigits(s)
    ensures DecimalValue(s) == DigitValue(s[0]) * 10 + DigitValue(s[1])
  {
    assert s[..|s| - 1] == s[..1];
    assert DecimalValue(s[..1]) == DigitValue(s[0]) by {
      assert s[..1][..0] == [];
    }
  }

  // ---- rules ----

  /** Text that the number rule converts: an optional '-' and at least one digit. */
  predicate IntText(t: string)
  {
    if |t| > 0 && t[0] == '-' then |t| > 1 && AllDigits(t[1..]) else |t| > 0 && AllDigits(t)
  }

  function IntTextValue(t: string): int
    requires IntText(t)
  {
    if t[0] == '-' then -(DecimalValue(t[1..]) as int) else DecimalValue(t)
  }

  /** The value the number rule sees after conversion, if any. */
  function AsInteger(v: JVal): Option<int>
  {
    match v
    case JNum(n) => Some(n)
    case JStr(t) => if IntText(t) then Some(IntTextValue(t)) else None
    case _ => None
  }

  /** `Number.MAX_SAFE_INTEGER`, 2^53 - 1: Joi refuses numbers beyond it in either
      direction (`number.unsafe`). */
  const MaxSafeInteger := 0x1F_FFFF_FFFF_FFFF

  predicate SafeInteger(n: int) { -MaxSafeInteger <= n <= MaxSafeInteger }

  function Check(ok: bool, code: string): (e: seq<string>)
    ensures e == [] <==> ok
  {
    if ok then [] else [code]
  }

  /** Errors of a text value: the emptiness check stops the key; the others are all
      reported. */
  function TextErrors(r: Rule, s: string, f: Formats): seq<string>
    requires r.Text?
  {
    if s == [] then Check(r.allowEmpty, "string.empty")
    else
      Check(|s| >= r.min, "string.min")
      + Check(r.max.None? || |s| <= r.max.value, "string.max")
      + Check(r.length.None? || |s| == r.length.value, "string.length")
      + Check(match r.pattern
              case AnyText => true
              case DigitsOnly => AllDigits(s)
              case ClockTime => MatchesClockTime(s), "string.pattern.base")
      + Check(match r.format
              case Plain => true
              case EmailAddress => f.isEmail(s)
              case UriText => f.isUri(s), "string.format")
  }

  /** Errors of a key restricted to a list of values (`valid(...)`): a listed value
      passes at once, without the type's own checks; any other value is reported as
      `any.only` and, since every error is collected, still goes through them. */
  function OnlyErrors(listed: bool, typeErrors: seq<string>): (e: seq<string>)
    ensures listed ==> e == []
    ensures !listed ==> e == ["any.only"] + typeErrors
  {
    if listed then [] else ["any.only"] + typeErrors
  }

  /** Errors of a value under a number rule: the base, safety and integer checks stop
      the key; the bounds are both reported. */
  function IntegerErrors(lo: Option<int>, hi: Option<int>, v: JVal): seq<string>
  {
    if v.JFrac? then ["number.integer"]
    else if AsInteger(v).None? then ["number.base"]
    else if !SafeInteger(AsInteger(v).value) then ["number.unsafe"]
    else
      var n := AsInteger(v).value;
      Check(lo.None? || n >= lo.value, "number.min") + Check(hi.None? || n <= hi.value, "number.max")
  }

  /** Error codes of one key of `body`. */
  function KeyErrors(k: Key, body: Body, f: Formats): seq<string>
  {
    if k.name !in body then Check(!k.required, "any.required")
    else
      var v := body[k.name];
      match k.rule
      case Text(_, _, _, _, _, valid, _) =>
        var typeErrors := if v.JStr? then TextErrors(k.rule, v.s, f) else ["string.base"];
        if valid == [] then typeErrors else OnlyErrors(v.JStr? && v.s in valid, typeErrors)
      case Integer(lo, hi) => IntegerErrors(lo, hi, v)
      case Date => Check(v.JStr? && f.isIsoDate(v.s), "date.format")
      case Confirms(other) =>
        OnlyErrors(other in body && body[other] == v,
                   if v.JStr? then Check(v.s != [], "string.empty") else ["string.base"])
  }

  /** The value kept for a key that passed: a number given as text is converted,
      anything else is kept as it is. */
  function Converted(r: Rule, v: JVal): JVal
  {
    match r
    case Integer(_, _) => if AsInteger(v).Some? then JNum(AsInteger(v).value) else v
    case _ => v
  }

  datatype FieldError = FieldError(field: string, message: string)

  /** The error codes of one key, each labelled with the key's name. */
  function Tagged(name: string, codes: seq<string>): (r: seq<FieldError>)
    ensures |r| == |codes|
    ensures forall e :: e in r ==> e.field == name
  {
    if codes == [] then [] else Tagged(name, codes[..|codes| - 1]) + [FieldError(name, codes[|codes| - 1])]
  }

  function SchemaErrors(schema: Schema, body: Body, f: Formats): (errs: seq<FieldError>)
    ensures forall e :: e in errs ==> exists i :: 0 <= i < |schema| && e.field == schema[i].name
  {
    if schema == [] then []
    else
      var k := schema[|schema| - 1];
      var own := KeyErrors(k, body, f);
      var errs := SchemaErrors(schema[..|schema| - 1], body, f) + Tagged(k.name, own);
      assert forall e :: e in errs ==> exists i :: 0 <= i < |schema| && e.field == schema[i].name by {
        forall e | e in errs ensures exists i :: 0 <= i < |schema| && e.field == schema[i].name {
          if e in SchemaErrors(schema[..|schema| - 1], body, f) {
            var i :| 0 <= i < |schema[..|schema| - 1]| && e.field == schema[..|schema| - 1][i].name;
            assert e.field == schema[i].name;
          } else {
            assert e.field == schema[|schema| - 1].name;
          }
        }
      }
      errs
  }

  /** No later key of `schema` has the name of key `i`: the one whose value is kept. */
  predicate LastOfName(schema: Schema, i: int)
    requires 0 <= i < |schema|
  {
    forall j :: i < j < |schema| ==> schema[j].name != schema[i].name
  }

  /** The validated body: the converted values of the schema's keys that are present
      (when a name is listed twice, the later key's rule applies). */
  function Stripped(schema: Schema, body: Body): (value: Body)
    ensures forall name :: name in value <==> name in body && exists i :: 0 <= i < |schema| && schema[i].name == name
    ensures forall i :: 0 <= i < |schema| && schema[i].name in body && LastOfName(schema, i) ==>
              value[schema[i].name] == Converted(schema[i].rule, body[schema[i].name])
  {
    if schema == [] then map[]
    else
      var k := schema[|schema| - 1];
      var init := schema[..|schema| - 1];
      var rest := Stripped(init, body);
      var value := if k.name in body then rest[k.name := Converted(k.rule, body[k.name])] else rest;
      assert forall name :: name in value <==> name in body && exists i :: 0 <= i < |schema| && schema[i].name == name by {
        forall name ensures name in value <==> name in body && exists i :: 0 <= i < |schema| && schema[i].name == name {
          if name in body && name != k.name && (exists i :: 0 <= i < |schema| && schema[i].name == name) {
            var i :| 0 <= i < |schema| && schema[i].name == name;
            assert init[i].name == name;
          }
          if name in rest {
            var i :| 0 <= i < |init| && init[i].name == name;
            assert schema[i].name == name;
          }
        }
      }
      assert forall i :: 0 <= i < |schema| && schema[i].name in body && LastOfName(schema, i) ==>
               value[schema[i].name] == Converted(schema[i].rule, body[schema[i].name]) by {
        forall i | 0 <= i < |schema| && schema[i].name in body && LastOfName(schema, i)
          ensures value[schema[i].name] == Converted(schema[i].rule, body[schema[i].name])
        {
          if i < |init| {
            assert schema[|schema| - 1].name != schema[i].name;
            assert init[i] == schema[i];
            assert LastOfName(init, i);
          }
        }
      }
      value
  }

  datatype Verdict = Invalid(status: int, details: seq<FieldError>) | Accepted(body: Body)

  /** `validateRequest(schema)`: 400 with every error found, or the stripped body. */
  function ValidateRequest(schema: Schema, body: Body, f: Formats): (r: Verdict)
    ensures r.Accepted? <==> SchemaErrors(schema, body, f) == []
    ensures r.Invalid? ==> r.status == BadRequest && r.details == SchemaErrors(schema, body, f)
    ensures r.Accepted? ==> r.body == Stripped(schema, body)
    ensures r.Accepted? ==> forall name :: name in r.body ==> name in body
  {
    var errs := SchemaErrors(schema, body, f);
    if errs == [] then Accepted(Stripped(schema, body)) else Invalid(BadRequest, errs)
  }

  predicate Fails(k: Key, body: Body, f: Formats)
  {
    KeyErrors(k, body, f) != []
  }

  /** Every failing key is reported, and only failing keys are. */
  lemma ErrorsNameFailingKeys(schema: Schema, body: Body, f: Formats, name: string)
    ensures (exists e :: e in SchemaErrors(schema, body, f) && e.field == name) <==>
      (exists i :: 0 <= i < |schema| && schema[i].name == name && Fails(schema[i], body, f))
  {
    ReportedKeysFail(schema, body, f, name);
    FailingKeysReported(schema, body, f, name);
  }

  lemma {:induction false} ReportedKeysFail(schema: Schema, body: Body, f: Formats, name: string)
    ensures (exists e :: e in SchemaErrors(schema, body, f) && e.field == name) ==>
      (exists i :: 0 <= i < |schema| && schema[i].name == name && Fails(schema[i], body, f))
    decreases |schema|
  {
    if schema != [] && exists e :: e in SchemaErrors(schema, body, f) && e.field == name {
      var init := schema[..|schema| - 1];
      var k := schema[|schema| - 1];
      var tail := Tagged(k.name, KeyErrors(k, body, f));
      SchemaErrorsSnoc(schema, body, f);
      var e :| e in SchemaErrors(schema, body, f) && e.field == name;
      if e in SchemaErrors(init, body, f) {
        ReportedKeysFail(init, body, f, name);
        var i :| 0 <= i < |init| && init[i].name == name && Fails(init[i], body, f);
        assert schema[i] == init[i];
      } else {
        assert e in tail;
        assert k.name == name && Fails(k, body, f);
      }
    }
  }

  lemma {:induction false} FailingKeysReported(schema: Schema, body: Body, f: Formats, name: string)
    ensures (exists i :: 0 <= i < |schema| && schema[i].name == name && Fails(schema[i], body, f)) ==>
      (exists e :: e in SchemaErrors(schema, body, f) && e.field == name)
    decreases |schema|
  {
    if exists i :: 0 <= i < |schema| && schema[i].name == name && Fails(schema[i], body, f) {
      var i :| 0 <= i < |schema| && schema[i].name == name && Fails(schema[i], body, f);
      var init := schema[..|schema| - 1];
      var k := schema[|schema| - 1];
      var tail := Tagged(k.name, KeyErrors(k, body, f));
      SchemaErrorsSnoc(schema, body, f);
      if i < |init| {
        assert init[i] == schema[i];
        FailingKeysReported(init, body, f, name);
        var e :| e in SchemaErrors(init, body, f) && e.field == name;
        assert e in SchemaErrors(schema, body, f);
      } else {
        assert k == schema[i] && tail != [];
        assert tail[0] in tail;
        assert tail[0] in SchemaErrors(schema, body, f);
      }
    }
  }

  // ---- what the schemas mean ----

  predicate IntIn(body: Body, name: string, lo: int, hi: int)
  {
    name in body && AsInteger(body[name]).Some? && lo <= AsInteger(body[name]).value <= hi
  }

  /** A vote in plain terms. */
  predicate VotoOk(body: Body)
  {
    && "atividade_id" in body && AsInteger(body["atividade_id"]).Some?
    && SafeInteger(AsInteger(body["atividade_id"]).value)
    && IntIn(body, "pontuacao", 1, 5)
    && ("prioridade_usuario" in body ==> IntIn(body, "prioridade_usuario", 1, 10))
    && ("comentario" in body ==> body["comentario"].JStr? && |body["comentario"].s| <= 500)
  }

  /** When a number key passes. */
  lemma IntegerKey(k: Key, body: Body, f: Formats)
    requires k.rule.Integer?
    ensures !Fails(k, body, f) <==>
      if k.name in body then
        && AsInteger(body[k.name]).Some?
        && SafeInteger(AsInteger(body[k.name]).value)
        && (k.rule.lo.Some? ==> AsInteger(body[k.name]).value >= k.rule.lo.value)
        && (k.rule.hi.Some? ==> AsInteger(body[k.name]).value <= k.rule.hi.value)
      else !k.required
  {
  }

  /** When a plain text key (no pattern, format, length or value list) passes. */
  lemma PlainTextKey(k: Key, body: Body, f: Formats)
    requires k.rule.Text? && k.rule.pattern == AnyText && k.rule.format == Plain
    requires k.rule.valid == [] && k.rule.length.None?
    ensures !Fails(k, body, f) <==>
      if k.name in body then
        && body[k.name].JStr?
        && (body[k.name].s == [] ==> k.rule.allowEmpty)
        && (body[k.name].s != [] ==> |body[k.name].s| >= k.rule.min)
        && (body[k.name].s != [] && k.rule.max.Some? ==> |body[k.name].s| <= k.rule.max.value)
      else !k.required
  {
  }

  lemma VotoAccepts(body: Body, f: Formats)
    ensures ValidateRequest(Voto, body, f).Accepted? <==> VotoOk(body)
  {
    AcceptedFour(Voto, body, f);
    assert !Fails(Voto[0], body, f) <==>
      "atividade_id" in body && AsInteger(body["atividade_id"]).Some? && SafeInteger(AsInteger(body["atividade_id"]).value)
    by {
      IntegerKey(Voto[0], body, f);
    }
    assert !Fails(Voto[1], body, f) <==> IntIn(body, "pontuacao", 1, 5) by {
      IntegerKey(Voto[1], body, f);
    }
    assert !Fails(Voto[2], body, f) <==> ("prioridade_usuario" in body ==> IntIn(body, "prioridade_usuario", 1, 10)) by {
      IntegerKey(Voto[2], body, f);
    }
    assert !Fails(Voto[3], body, f) <==> ("comentario" in body ==> body["comentario"].JStr? && |body["comentario"].s| <= 500)
    by {
      PlainTextKey(Voto[3], body, f);
    }
  }

  /** A four-key schema accepts exactly when none of its four keys fails. */
  lemma AcceptedFour(schema: Schema, body: Body, f: Formats)
    requires |schema| == 4
    ensures ValidateRequest(schema, body, f).Accepted? <==>
      !Fails(schema[0], body, f) && !Fails(schema[1], body, f) && !Fails(schema[2], body, f) && !Fails(schema[3], body, f)
  {
    NoErrorsIffNoneFails(schema, body, f);
  }

  lemma {:induction false} NoErrorsIffNoneFails(schema: Schema, body: Body, f: Formats)
    ensures SchemaErrors(schema, body, f) == [] <==> forall i :: 0 <= i < |schema| ==> !Fails(schema[i], body, f)
  {
    if SchemaErrors(schema, body, f) == [] {
      NoErrorsNoneFails(schema, body, f);
    }
    if forall i :: 0 <= i < |schema| ==> !Fails(schema[i], body, f) {
      NoneFailsNoErrors(schema, body, f);
    }
  }

  /** The errors of a schema: those of all its keys but the last, then the last one's. */
  lemma SchemaErrorsSnoc(schema: Schema, body: Body, f: Formats)
    requires schema != []
    ensures var k := schema[|schema| - 1];
            SchemaErrors(schema, body, f) == SchemaErrors(schema[..|schema| - 1], body, f) + Tagged(k.name, KeyErrors(k, body, f))
    ensures var k := schema[|schema| - 1];
            Tagged(k.name, KeyErrors(k, body, f)) == [] <==> !Fails(k, body, f)
  {
  }

  lemma {:induction false} NoErrorsNoneFails(schema: Schema, body: Body, f: Formats)
    requires SchemaErrors(schema, body, f) == []
    ensures forall i :: 0 <= i < |schema| ==> !Fails(schema[i], body, f)
    decreases |schema|
  {
    if schema != [] {
      var init := schema[..|schema| - 1];
      SchemaErrorsSnoc(schema, body, f);
      NoErrorsNoneFails(init, body, f);
      forall i | 0 <= i < |schema| ensures !Fails(schema[i], body, f) {
        if i < |init| {
          assert init[i] == schema[i];
        }
      }
    }
  }

  lemma {:induction false} NoneFailsNoErrors(schema: Schema, body: Body, f: Formats)
    requires forall i :: 0 <= i < |schema| ==> !Fails(schema[i], body, f)
    ensures SchemaErrors(schema, body, f) == []
    decreases |schema|
  {
    if schema != [] {
      var init := schema[..|schema| - 1];
      SchemaErrorsSnoc(schema, body, f);
      assert forall i :: 0 <= i < |init| ==> !Fails(init[i], body, f) by {
        assert forall i :: 0 <= i < |init| ==> init[i] == schema[i];
      }
      NoneFailsNoErrors(init, body, f);
      assert !Fails(schema[|schema| - 1], body, f);
    }
  }

  /** An accepted session has a title of 5 to 200 characters, a clock time, a
      duration of 1 to 8 and 1 to 1000 expected participants when given, and a known
      type when given. */
  lemma SessaoBounds(body: Body, f: Formats)
    requires ValidateRequest(Sessao, body, f).Accepted?
    ensures "titulo" in body && body["titulo"].JStr? && 5 <= |body["titulo"].s| <= 200
    ensures "horario" in body && body["horario"].JStr? && MatchesClockTime(body["horario"].s)
    ensures "duracao" in body ==> IntIn(body, "duracao", 1, 8)
    ensures "participantes_previstos" in body ==> IntIn(body, "participantes_previstos", 1, 1000)
    ensures "tipo" in body ==> body["tipo"] in {JStr("presencial"), JStr("virtual"), JStr("hibrido")}
    ensures "distrito" in body && "provincia" in body && "data" in body
  {
    assert SchemaErrors(Sessao, body, f) == [];
    SessaoTitle(body, f);
    SessaoClock(body, f);
    SessaoCounts(body, f);
    SessaoTipo(body, f);
    SessaoRequired(body, f);
  }

  lemma SessaoTitle(body: Body, f: Formats)
    requires SchemaErrors(Sessao, body, f) == []
    ensures "titulo" in body && body["titulo"].JStr? && 5 <= |body["titulo"].s| <= 200
  {
    NoErrorKey(Sessao, 0, body, f);
    TitleKey(body, f);
  }

  lemma SessaoClock(body: Body, f: Formats)
    requires SchemaErrors(Sessao, body, f) == []
    ensures "horario" in body && body["horario"].JStr? && MatchesClockTime(body["horario"].s)
  {
    NoErrorKey(Sessao, 3, body, f);
    ClockKey(body, f);
  }

  lemma SessaoCounts(body: Body, f: Formats)
    requires SchemaErrors(Sessao, body, f) == []
    ensures "duracao" in body ==> IntIn(body, "duracao", 1, 8)
    ensures "participantes_previstos" in body ==> IntIn(body, "participantes_previstos", 1, 1000)
  {
    NoErrorKey(Sessao, 4, body, f);
    IntegerKey(Sessao[4], body, f);
    NoErrorKey(Sessao, 8, body, f);
    IntegerKey(Sessao[8], body, f);
  }

  lemma SessaoTipo(body: Body, f: Formats)
    requires SchemaErrors(Sessao, body, f) == []
    ensures "tipo" in body ==> body["tipo"] in {JStr("presencial"), JStr("virtual"), JStr("hibrido")}
  {
    NoErrorKey(Sessao, 9, body, f);
    TipoKey(body, f);
  }

  lemma SessaoRequired(body: Body, f: Formats)
    requires SchemaErrors(Sessao, body, f) == []
    ensures "distrito" in body && "provincia" in body && "data" in body
  {
    forall i | i in {2, 5, 6} ensures Sessao[i].name in body {
      NoErrorKey(Sessao, i, body, f);
      RequiredPresent(Sessao[i], body, f);
    }
    assert Sessao[2].name == "data" && Sessao[5].name == "distrito" && Sessao[6].name == "provincia";
  }

  /** A required key that passes is present. */
  lemma RequiredPresent(k: Key, body: Body, f: Formats)
    requires k.required && !Fails(k, body, f)
    ensures k.name in body
  {
  }

  /** With no error at all, each key passes. */
  lemma NoErrorKey(schema: Schema, i: nat, body: Body, f: Formats)
    requires i < |schema| && SchemaErrors(schema, body, f) == []
    ensures !Fails(schema[i], body, f)
  {
    NoErrorsIffNoneFails(schema, body, f);
  }

  lemma TitleKey(body: Body, f: Formats)
    requires !Fails(Key("titulo", PlainText(5, Some(200), false), true), body, f)
    ensures "titulo" in body && body["titulo"].JStr? && 5 <= |body["titulo"].s| <= 200
  {
    PlainTextKey(Key("titulo", PlainText(5, Some(200), false), true), body, f);
  }

  lemma ClockKey(body: Body, f: Formats)
    requires !Fails(Key("horario", Text(0, None, None, false, ClockTime, [], Plain), true), body, f)
    ensures "horario" in body && body["horario"].JStr? && MatchesClockTime(body["horario"].s)
  {
  }

  lemma TipoKey(body: Body, f: Formats)
    requires !Fails(Key("tipo", Text(0, None, None, false, AnyText, ["presencial", "virtual", "hibrido"], Plain), false), body, f)
    ensures "tipo" in body ==> body["tipo"] in {JStr("presencial"), JStr("virtual"), JStr("hibrido")}
  {
  }

  /** The recovery code is accepted exactly when it is six decimal digits. */
  lemma CodigoSixDigits(body: Body, f: Formats)
    ensures !Fails(VerificarCodigo[1], body, f) <==>
      "codigo" in body && body["codigo"].JStr? && |body["codigo"].s| == 6 && AllDigits(body["codigo"].s)
  {
  }

  /** An accepted password change repeats the new password exactly. */
  lemma ConfirmationMatches(body: Body, f: Formats)
    requires ValidateRequest(RedefinirSenha, body, f).Accepted? || ValidateRequest(AlterarSenha, body, f).Accepted?
    ensures "confirmar_senha" in body && "nova_senha" in body
    ensures body["confirmar_senha"] == body["nova_senha"] && body["nova_senha"].JStr?
    ensures |body["nova_senha"].s| >= 6
  {
    if ValidateRequest(RedefinirSenha, body, f).Accepted? {
      NoErrorsIffNoneFails(RedefinirSenha, body, f);
      assert !Fails(RedefinirSenha[1], body, f) && !Fails(RedefinirSenha[2], body, f);
      PlainTextKey(RedefinirSenha[1], body, f);
      ConfirmsKey(RedefinirSenha[2], body, f);
    } else {
      NoErrorsIffNoneFails(AlterarSenha, body, f);
      assert !Fails(AlterarSenha[1], body, f) && !Fails(AlterarSenha[2], body, f);
      PlainTextKey(AlterarSenha[1], body, f);
      ConfirmsKey(AlterarSenha[2], body, f);
    }
  }

  /** When a confirmation key (`valid(Joi.ref(...))`) passes: it repeats the other key. */
  lemma ConfirmsKey(k: Key, body: Body, f: Formats)
    requires k.rule.Confirms?
    ensures !Fails(k, body, f) <==>
      if k.name in body then k.rule.other in body && body[k.rule.other] == body[k.name] else !k.required
  {
  }
}
