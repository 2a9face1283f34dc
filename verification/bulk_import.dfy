/**
 * `inserir_em_massa`: the bulk import of pasted tab-separated text into the
 * `inqueritos` table.
 *
 * The first line is a header and is thrown away. Every further line is split on
 * tabs; a line with no fields or fewer than seven is skipped without being
 * counted. Every other line becomes one record, built from fixed field positions,
 * and is inserted; an insert that raises is counted as an error and the loop goes
 * on. Everything is committed once at the end; a failure outside the per-row
 * handling rolls the whole batch back and the import reports 0.
 *
 * The database is the table's rows in memory. What the environment decides is
 * given as parameters: whether a connection was obtained, which data lines'
 * INSERT raises, and whether the batch fails fatally.
 */
module BulkImport {
  import opened Wrappers
  import opened Text
  import opened Dates
  import opened CaseNumber

  /** One row of `inqueritos` (the generated `id` is not part of this model). */
  datatype Inquerito = Inquerito(
    numControle: Option<string>,
    numEletronico: string,
    ano: int,
    numProcesso: Option<string>,
    dataConclusao: Option<Date>,
    delegacia: Option<string>,
    dataUltimaAtualizacao: Option<Date>,
    status: Option<string>,
    equipe: Option<string>)

  /** The fields every imported line must have. */
  const CamposMinimos: nat := 7

  /** The loop's guard `if not row or len(row) < 7: continue`, negated. */
  predicate LinhaAceita(campos: seq<string>): (aceita: bool)
    ensures aceita <==> |campos| >= CamposMinimos
  {
    !(campos == [] || |campos| < CamposMinimos)
  }

  /**
   * The record one accepted line becomes: the electronic number from field 0, the
   * year read from that number, the precinct from field 2, the last-update date
   * from field 3, the conclusion date from field 4, status from field 5 and team
   * from field 6. Control and process numbers stay NULL.
   */
  function RegistroDaLinha(campos: seq<string>): (r: Inquerito)
    requires LinhaAceita(campos)
    ensures RegistroImportado(r)
    ensures r.numEletronico == campos[0]
  {
    Inquerito(
      numControle := None,
      numEletronico := campos[0],
      ano := AnoDoNumero(campos[0]),
      numProcesso := None,
      dataConclusao := FormatarData(campos[4]),
      delegacia := Some(campos[2]),
      dataUltimaAtualizacao := FormatarData(campos[3]),
      status := Some(campos[5]),
      equipe := Some(campos[6]))
  }

  /**
   * The rows the tab-delimited reader yields once the header line is consumed:
   * one row of fields per data line, in order.
   */
  function LinhasDeDados(dados: string): seq<seq<string>>
  {
    var linhas := Lines(AfterFirstLine(dados));
    seq(|linhas|, i requires 0 <= i < |linhas| => Fields(linhas[i]))
  }

  /** How many of the rows pass the field-count guard. */
  function Aceitas(linhas: seq<seq<string>>): (n: nat)
    ensures n <= |linhas|
  {
    if linhas == [] then 0
    else Aceitas(linhas[..|linhas| - 1]) + (if LinhaAceita(linhas[|linhas| - 1]) then 1 else 0)
  }

  /** The rows a batch appends, and its two counters `linhas_inseridas` and `linhas_com_erro`. */
  datatype Apuracao = Apuracao(registros: seq<Inquerito>, inseridas: nat, comErro: nat)

  /**
   * The state of the import after its loop has handled the first `n` rows, when
   * the INSERT of the row at index `i` raises exactly when `i in falhas`.
   */
  function Apurar(linhas: seq<seq<string>>, falhas: set<nat>, n: nat): (t: Apuracao)
    requires n <= |linhas|
    ensures |t.registros| == t.inseridas
    ensures t.inseridas + t.comErro <= n
  {
    if n == 0 then Apuracao([], 0, 0)
    else
      var t := Apurar(linhas, falhas, n - 1);
      var campos := linhas[n - 1];
      if !LinhaAceita(campos) then t
      else if n - 1 in falhas then t.(comErro := t.comErro + 1)
      else Apuracao(t.registros + [RegistroDaLinha(campos)], t.inseridas + 1, t.comErro)
  }

  /**
   * What a committed import of the whole text adds to the table and counts:
   * every data row that passes the guard is counted once, as inserted or as an error.
   */
  function Importacao(dados: string, falhas: set<nat>): (t: Apuracao)
    ensures t.inseridas + t.comErro == Aceitas(LinhasDeDados(dados))
  {
    var linhas := LinhasDeDados(dados);
    CountersMatchAcceptedRows(linhas, falhas, |linhas|);
    assert linhas[..|linhas|] == linhas;
    Apurar(linhas, falhas, |linhas|)
  }

  /**
   * The rows of a pasted text are the fields of its lines after the header, one
   * row per line, whether or not the last line ends with a line break.
   */
  lemma LinhasDeDadosOfText(header: string, linhas: seq<string>, ultima: string)
    requires '\n' !in header && '\n' !in ultima
    requires forall k :: 0 <= k < |linhas| ==> '\n' !in linhas[k]
    ensures var todas := if ultima == "" then linhas else linhas + [ultima];
            && |LinhasDeDados(header + "\n" + Unlines(linhas) + ultima)| == |todas|
            && forall k :: 0 <= k < |todas| ==>
                 LinhasDeDados(header + "\n" + Unlines(linhas) + ultima)[k] == Fields(todas[k])
  {
    var corpo := Unlines(linhas) + ultima;
    assert header + "\n" + Unlines(linhas) + ultima == header + "\n" + corpo;
    AfterFirstLineSkipsHeader(header, corpo);
    if ultima == "" {
      assert corpo == Unlines(linhas);
      LinesOfUnlines(linhas);
    } else {
      LinesOfUnlinesThenLast(linhas, ultima);
    }
  }

  // ---------------------------------------------------------------------------
  // Properties of the import
  // ---------------------------------------------------------------------------

  /**
   * Every row that passes the guard is counted exactly once, as inserted or as
   * an error; a skipped row is counted as neither.
   */
  lemma {:induction false} CountersMatchAcceptedRows(linhas: seq<seq<string>>, falhas: set<nat>, n: nat)
    requires n <= |linhas|
    ensures Apurar(linhas, falhas, n).inseridas + Apurar(linhas, falhas, n).comErro == Aceitas(linhas[..n])
  {
    if n > 0 {
      CountersMatchAcceptedRows(linhas, falhas, n - 1);
      assert linhas[..n][..n - 1] == linhas[..n - 1];
    }
  }

  /** The counters never exceed the data lines, and the appended rows are as many as the inserted count. */
  lemma CountersBoundedByDataLines(dados: string, falhas: set<nat>)
    ensures var t := Importacao(dados, falhas);
            t.inseridas + t.comErro <= |LinhasDeDados(dados)|
            && t.inseridas == |t.registros|
  {
    var linhas := LinhasDeDados(dados);
    assert linhas[..|linhas|] == linhas;
  }

  /** Without a line break the whole text is the header, and nothing is imported. */
  lemma SingleLineImportsNothing(dados: string, falhas: set<nat>)
    requires '\n' !in dados
    ensures Importacao(dados, falhas) == Apuracao([], 0, 0)
  {
    AfterFirstLineOfSingleLine(dados);
  }

  /** The header's text has no influence on what is imported. */
  lemma HeaderIsIgnored(header1: string, header2: string, body: string, falhas: set<nat>)
    requires '\n' !in header1 && '\n' !in header2
    ensures Importacao(header1 + "\n" + body, falhas) == Importacao(header2 + "\n" + body, falhas)
  {
    AfterFirstLineSkipsHeader(header1, body);
    AfterFirstLineSkipsHeader(header2, body);
  }

  /** Field 1 (a year column in the pasted sheet) never reaches the record. */
  lemma FieldOneIsIgnored(campos: seq<string>, outro: string)
    requires LinhaAceita(campos)
    ensures RegistroDaLinha(campos[1 := outro]) == RegistroDaLinha(campos)
  {
  }

  /** Fields after the seventh never reach the record. */
  lemma ExtraFieldsAreIgnored(campos: seq<string>, extras: seq<string>)
    requires LinhaAceita(campos)
    ensures RegistroDaLinha(campos + extras) == RegistroDaLinha(campos[..CamposMinimos])
  {
  }

  /** The shape every imported record has. */
  predicate RegistroImportado(r: Inquerito) {
    && r.numControle == None
    && r.numProcesso == None
    && r.ano == AnoDoNumero(r.numEletronico)
    && 0 <= r.ano <= 9999
    && r.delegacia.Some? && r.status.Some? && r.equipe.Some?
    && (r.dataConclusao.Some? ==> ValidDate(r.dataConclusao.value))
    && (r.dataUltimaAtualizacao.Some? ==> ValidDate(r.dataUltimaAtualizacao.value))
  }

  /**
   * Every record the import appends leaves control and process numbers unset,
   * carries the year of its own electronic number, and holds only real dates.
   */
  lemma {:induction false} ImportedRecordsAreWellFormed(linhas: seq<seq<string>>, falhas: set<nat>, n: nat)
    requires n <= |linhas|
    ensures forall k :: 0 <= k < |Apurar(linhas, falhas, n).registros| ==>
              RegistroImportado(Apurar(linhas, falhas, n).registros[k])
  {
    if n > 0 {
      ImportedRecordsAreWellFormed(linhas, falhas, n - 1);
    }
  }

  /** The indexes of the rows whose record was inserted, in input order. */
  ghost function Origens(linhas: seq<seq<string>>, falhas: set<nat>, n: nat): seq<nat>
    requires n <= |linhas|
  {
    if n == 0 then []
    else
      var o := Origens(linhas, falhas, n - 1);
      if LinhaAceita(linhas[n - 1]) && n - 1 !in falhas then o + [n - 1] else o
  }

  /** The inserted lines' indexes are increasing, below `n`, and name accepted lines whose insert succeeded. */
  lemma {:induction false} OrigensAreInsertedLines(linhas: seq<seq<string>>, falhas: set<nat>, n: nat)
    requires n <= |linhas|
    ensures var o := Origens(linhas, falhas, n);
      && (forall k, l :: 0 <= k < l < |o| ==> o[k] < o[l])
      && (forall k :: 0 <= k < |o| ==> o[k] < n && LinhaAceita(linhas[o[k]]) && o[k] !in falhas)
      && (forall i :: 0 <= i < n && LinhaAceita(linhas[i]) && i !in falhas ==> i in o)
  {
    if n > 0 {
      OrigensAreInsertedLines(linhas, falhas, n - 1);
    }
  }

  /**
   * The import appends exactly the records of the accepted lines whose insert
   * succeeded, in the order of the input: the `k`-th appended record is built
   * from the `k`-th such line (see `OrigensAreInsertedLines`).
   */
  lemma {:induction false} AppendsAcceptedLinesInOrder(linhas: seq<seq<string>>, falhas: set<nat>, n: nat)
    requires n <= |linhas|
    ensures var t, o := Apurar(linhas, falhas, n), Origens(linhas, falhas, n);
      && |o| == |t.registros|
      && (forall k :: 0 <= k < |o| ==> o[k] < |linhas| && LinhaAceita(linhas[o[k]]))
      && (forall k :: 0 <= k < |o| ==> t.registros[k] == RegistroDaLinha(linhas[o[k]]))
  {
    if n > 0 {
      AppendsAcceptedLinesInOrder(linhas, falhas, n - 1);
      var t, o := Apurar(linhas, falhas, n - 1), Origens(linhas, falhas, n - 1);
      var campos := linhas[n - 1];
      if LinhaAceita(campos) && n - 1 !in falhas {
        var t', o' := Apurar(linhas, falhas, n), Origens(linhas, falhas, n);
        assert t'.registros == t.registros + [RegistroDaLinha(campos)];
        assert o' == o + [n - 1];
        forall k | 0 <= k < |o'|
          ensures o'[k] < |linhas| && LinhaAceita(linhas[o'[k]])
          ensures t'.registros[k] == RegistroDaLinha(linhas[o'[k]])
        {
          if k < |o| {
            assert o'[k] == o[k] && t'.registros[k] == t.registros[k];
          }
        }
      } else {
        assert Apurar(linhas, falhas, n).registros == t.registros;
        assert Origens(linhas, falhas, n) == o;
      }
    }
  }

  /** When no insert fails there are no errors and every accepted line is inserted. */
  lemma {:induction false} NoFailuresNoErrors(linhas: seq<seq<string>>, n: nat)
    requires n <= |linhas|
    ensures Apurar(linhas, {}, n).comErro == 0
    ensures Apurar(linhas, {}, n).inseridas == Aceitas(linhas[..n])
  {
    if n > 0 {
      NoFailuresNoErrors(linhas, n - 1);
    }
    CountersMatchAcceptedRows(linhas, {}, n);
  }

  // ---------------------------------------------------------------------------
  // The table and the import itself
  // ---------------------------------------------------------------------------

  /** The message the import flashes to the user. */
  datatype Aviso =
    | SemAviso                                 // no connection: nothing is flashed
    | Sucesso(inseridas: nat)                  // "Sucesso! N inquéritos importados."
    | Atencao(inseridas: nat, comErro: nat)    // "Atenção! N importados, mas E linhas tiveram erro"
    | ErroFatal                                // "Erro fatal na importação"

  /** The `inqueritos` table. */
  class Banco {
    var inqueritos: seq<Inquerito>

    constructor (iniciais: seq<Inquerito>)
      ensures inqueritos == iniciais
    {
      inqueritos := iniciais;
    }

    /**
     * `inserir_em_massa(dados)`. `conectado` is whether `conectar()` gave a
     * connection, `falhas` the data-line indexes whose INSERT raises, and
     * `falhaFatal` whether the batch fails outside the per-row handling.
     */
    method InserirEmMassa(dados: string, conectado: bool, falhas: set<nat>, falhaFatal: bool)
      returns (resultado: nat, aviso: Aviso)
      modifies this
      ensures !conectado ==> resultado == 0 && aviso == SemAviso && inqueritos == old(inqueritos)
      ensures conectado && falhaFatal ==>
                resultado == 0 && aviso == ErroFatal && inqueritos == old(inqueritos)
      ensures conectado && !falhaFatal ==>
                var t := Importacao(dados, falhas);
                && inqueritos == old(inqueritos) + t.registros
                && resultado == t.inseridas
                && |inqueritos| == |old(inqueritos)| + resultado
                && aviso == (if t.comErro > 0 then Atencao(t.inseridas, t.comErro) else Sucesso(t.inseridas))
    {
      if !conectado {
        return 0, SemAviso;
      }
      var inseridas: nat := 0;
      var comErro: nat := 0;
      var antes := inqueritos;
      var linhas := LinhasDeDados(dados);

      var i := 0;
      ghost var novos: seq<Inquerito> := [];
      while i < |linhas|
        invariant 0 <= i <= |linhas|
        invariant inqueritos == antes + novos
        invariant Apurar(linhas, falhas, i) == Apuracao(novos, inseridas, comErro)
      {
        var campos := linhas[i];
        if campos == [] || |campos| < CamposMinimos {
          // skipped: counted neither as inserted nor as an error
        } else if i in falhas {
          comErro := comErro + 1;
        } else {
          var registro := RegistroDaLinha(campos);
          inqueritos := inqueritos + [registro];
          novos := novos + [registro];
          inseridas := inseridas + 1;
        }
        i := i + 1;
      }

      if falhaFatal {
        inqueritos := antes;
        return 0, ErroFatal;
      }
      resultado := inseridas;
      aviso := if comErro > 0 then Atencao(inseridas, comErro) else Sucesso(inseridas);
    }
  }
}
