/**
 * The sort parameters of `listar_inqueritos`. The column and the direction are
 * pasted into the `ORDER BY` clause of the query text, so both are first passed
 * through an allow-list: an unknown column becomes `ano` and any direction
 * other than exactly `ASC` or `DESC` becomes `DESC`.
 */
module Listing {

  /** The column identifiers the allow-list lets into the query text. */
  const ColunasOrdenaveis: set<string> := {"ano", "num_controle", "data_conclusao"}

  /** `colunas_validas`: each sort key a request may name maps to the column of the same name. */
  const ColunasValidas: map<string, string> := map c | c in ColunasOrdenaveis :: c

  /** `direcoes_validas`. */
  const DirecoesValidas: set<string> := {"ASC", "DESC"}

  const ColunaPadrao: string := "ano"
  const DirecaoPadrao: string := "DESC"

  /** `colunas_validas.get(ordenar_por, 'ano')`. */
  function Coluna(ordenarPor: string): (coluna: string)
    ensures coluna in ColunasOrdenaveis
    ensures ordenarPor in ColunasValidas ==> coluna == ordenarPor
    ensures ordenarPor !in ColunasValidas ==> coluna == ColunaPadrao
  {
    if ordenarPor in ColunasValidas then ColunasValidas[ordenarPor] else ColunaPadrao
  }

  /** `direcao if direcao in direcoes_validas else 'DESC'`. */
  function Direcao(direcao: string): (d: string)
    ensures d in DirecoesValidas
    ensures direcao in DirecoesValidas ==> d == direcao
    ensures direcao !in DirecoesValidas ==> d == DirecaoPadrao
  {
    if direcao in DirecoesValidas then direcao else DirecaoPadrao
  }

  function OrderBy(coluna: string, direcao: string): string
  {
    "SELECT * FROM inqueritos ORDER BY " + coluna + " " + direcao
  }

  /**
   * Different allowed column/direction pairs give different query texts, so the
   * text sent always says which column and direction were chosen.
   */
  lemma OrderByIsInjective(c1: string, d1: string, c2: string, d2: string)
    requires c1 in ColunasOrdenaveis && d1 in DirecoesValidas
    requires c2 in ColunasOrdenaveis && d2 in DirecoesValidas
    ensures OrderBy(c1, d1) == OrderBy(c2, d2) <==> c1 == c2 && d1 == d2
  {
    // The six texts already differ in length: 3, 12 or 14 letters of column
    // name and 3 or 4 of direction give six different sums.
  }

  /** Every query text the listing can send: one allowed column and one allowed direction. */
  function ConsultasPermitidas(): (qs: set<string>)
  {
    set c, d | c in ColunasOrdenaveis && d in DirecoesValidas :: OrderBy(c, d)
  }

  /** The query text `listar_inqueritos` builds from the request's sort parameters. */
  function ConsultaListagem(ordenarPor: string, direcao: string): (sql: string)
    ensures sql in ConsultasPermitidas()
  {
    OrderBy(Coluna(ordenarPor), Direcao(direcao))
  }

  /** There are exactly six of those texts, whatever the request said. */
  lemma ConsultasPermitidasAreSix()
    ensures |ConsultasPermitidas()| == 6
  {
    var a1, a2 := OrderBy("ano", "ASC"), OrderBy("ano", "DESC");
    var n1, n2 := OrderBy("num_controle", "ASC"), OrderBy("num_controle", "DESC");
    var c1, c2 := OrderBy("data_conclusao", "ASC"), OrderBy("data_conclusao", "DESC");
    assert ConsultasPermitidas() == {a1, a2, n1, n2, c1, c2};
    assert |a1| == 41 && |a2| == 42 && |n1| == 50 && |n2| == 51 && |c1| == 52 && |c2| == 53;
  }

  /** The direction test is exact: a lower-case `asc` is not ascending. */
  lemma DirecaoIsCaseSensitive()
    ensures Direcao("asc") == "DESC"
  {
  }
}
