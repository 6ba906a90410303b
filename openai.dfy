/**
 * The original single-call OpenAI helper: the completion text, with a fixed
 * apology when the model returns nothing, and the site links suggested by
 * words in that text.
 *
 * The completion's content is a parameter; the call itself is not modelled.
 */
module OpenAiHelper {
  import opened Wrappers
  import opened Text

  const NewsletterUrl: string := "https://www.hubermanlab.com/newsletter"
  const PremiumUrl: string := "https://www.hubermanlab.com/premium"
  const EpisodesUrl: string := "https://www.hubermanlab.com/all-episodes"

  /** The three links in the order they are offered. */
  const AllResources: seq<string> := [NewsletterUrl, PremiumUrl, EpisodesUrl]

  const NoResponse: string := "I couldn't generate a response."

  /** Position of a link in `AllResources`; 3 for anything else. */
  function Rank(u: string): (n: nat)
    ensures n <= 3
    ensures n < 3 ==> AllResources[n] == u
  {
    if u == NewsletterUrl then 0 else if u == PremiumUrl then 1 else if u == EpisodesUrl then 2 else 3
  }

  predicate WantsNewsletter(text: string) { Contains(LowerStr(text), "newsletter") }
  predicate WantsPremium(text: string) { Contains(LowerStr(text), "premium") }
  predicate WantsEpisodes(text: string) {
    Contains(LowerStr(text), "episodes") || Contains(LowerStr(text), "podcast")
  }

  /** `extractResources`: three independent tests, each appending one link. */
  method ExtractResources(text: string) returns (resources: seq<string>)
    ensures NewsletterUrl in resources <==> WantsNewsletter(text)
    ensures PremiumUrl in resources <==> WantsPremium(text)
    ensures EpisodesUrl in resources <==> WantsEpisodes(text)
    ensures forall u :: u in resources ==> u in AllResources
    ensures |resources| <= 3
    ensures forall i, j :: 0 <= i < j < |resources| ==> Rank(resources[i]) < Rank(resources[j])
    ensures forall i, j :: 0 <= i < j < |resources| ==> resources[i] != resources[j]
  {
    resources := [];
    if Contains(LowerStr(text), "newsletter") {
      resources := resources + [NewsletterUrl];
    }
    if Contains(LowerStr(text), "premium") {
      resources := resources + [PremiumUrl];
    }
    if Contains(LowerStr(text), "episodes") || Contains(LowerStr(text), "podcast") {
      resources := resources + [EpisodesUrl];
    }
  }

  /** The reply text: the completion's content, or the apology when it is missing or empty. */
  function ResponseText(content: Option<string>): (r: string)
    ensures r != ""
    ensures content.Some? && content.value != "" ==> r == content.value
    ensures content.None? || content.value == "" ==> r == NoResponse
  {
    if content.Some? && content.value != "" then content.value else NoResponse
  }

  /** `generateResponse`, given what the completion returned. */
  method GenerateResponse(content: Option<string>) returns (response: string, resources: seq<string>)
    ensures response == ResponseText(content)
    ensures EpisodesUrl in resources <==> WantsEpisodes(response)
    ensures NewsletterUrl in resources <==> WantsNewsletter(response)
    ensures PremiumUrl in resources <==> WantsPremium(response)
    ensures |resources| <= 3
  {
    response := ResponseText(content);
    resources := ExtractResources(response);
  }
}
