/**
 * The page registry (`pageData`): a fixed map from page id to the text shown
 * in the hero area, populated once and never changed.
 */
module Pages {

  datatype PageInfo = PageInfo(title: string, description: string, keywords: seq<string>)

  /** The page shown when the address carries no usable fragment. */
  const DefaultPage: string := "energia"

  const PageData: map<string, PageInfo> := map[
    "energia" := PageInfo(
      "Energia Limpa",
      "Entenda as principais fontes de energia renovável e como elas ajudam a reduzir emissões de gases do efeito estufa.",
      ["solar", "eólica", "hidrogênio", "biomassa", "renovável"]),
    "agua" := PageInfo(
      "Gestão da Água",
      "Gestão, saneamento e tecnologias de reuso para garantir acesso universal à água potável.",
      ["bacias", "dessalinização", "saneamento", "purificação"]),
    "biodiversidade" := PageInfo(
      "Biodiversidade",
      "Conservação de espécies e habitats para manter o equilíbrio dos ecossistemas.",
      ["habitats", "espécies", "conservação", "polinizadores"]),
    "agricultura" := PageInfo(
      "Agricultura Sustentável",
      "Agroecologia, solo e sistemas resilientes para produção de alimentos sustentável.",
      ["agroecologia", "agrofloresta", "solo", "precisão"]),
    "residuos" := PageInfo(
      "Gestão de Resíduos",
      "Reduzir, reciclar e economia circular para minimizar impactos ambientais.",
      ["redução", "circular", "reciclagem", "logística"]),
    "cidades" := PageInfo(
      "Cidades e Mobilidade",
      "Urbanismo, transporte e infraestrutura verde para cidades mais sustentáveis.",
      ["mobilidade", "infraestrutura", "transporte", "inteligentes"]),
    "educacao" := PageInfo(
      "Educação Ambiental",
      "Comunicação científica e engajamento para formar cidadãos conscientes.",
      ["comunicação", "escolar", "engajamento", "mídia"]),
    "politicas" := PageInfo(
      "Políticas e Economia",
      "Governança, incentivos e instrumentos econômicos para desenvolvimento sustentável.",
      ["instrumentos", "governança", "parcerias", "financiamento"])
  ]

  /** The registry's keys. */
  const PageIds: set<string> :=
    {"energia", "agua", "biodiversidade", "agricultura", "residuos", "cidades", "educacao", "politicas"}

  /** The intended registry test: the id is one of the registry's own keys. */
  predicate IsPage(id: string) {
    id in PageIds
  }

  lemma PageIdsAreKeys()
    ensures PageIds == PageData.Keys
  {
  }

  /**
   * The property names every plain JavaScript object inherits from
   * `Object.prototype`; looking any of them up on the registry object yields
   * a truthy value although none is a page.
   */
  const InheritedNames: set<string> := {
    "constructor", "hasOwnProperty", "isPrototypeOf", "propertyIsEnumerable",
    "toLocaleString", "toString", "valueOf", "__proto__",
    "__defineGetter__", "__defineSetter__", "__lookupGetter__", "__lookupSetter__"
  }

  /**
   * The registry test as the code writes it, `if (pageData[id])`: true for the
   * registry's own keys and for every inherited name.
   */
  predicate JsLookupTruthy(id: string) {
    id in PageIds || id in InheritedNames
  }

  /** The written test accepts an id that is not a page. */
  lemma JsLookupAcceptsNonPage()
    ensures JsLookupTruthy("toString") && !IsPage("toString")
  {
    assert "toString" in InheritedNames;
    assert "toString" !in PageIds;
  }

  /** The corrected test agrees with the written one on every real page and rejects the rest. */
  lemma IsPageRefinesLookup(id: string)
    ensures IsPage(id) <==> JsLookupTruthy(id) && id !in InheritedNames
  {
    if id in InheritedNames {
      assert PageIds !! InheritedNames;
    }
  }

  lemma DefaultIsPage()
    ensures IsPage(DefaultPage)
    ensures PageData[DefaultPage].title == "Energia Limpa"
  {
  }
}
